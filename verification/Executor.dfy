/** The executor itself: requests whose state is updated in place, lock flags in the servers, lock
    numbers in the partitions, and the loop that dispatches and reaps. */
module Executor {
  import opened Transactions
  import opened Schedule
  import opened Cell
  import Drain
  import Echo
  import Outcome

  type State = Exec<Volume, Server, Partition>

  datatype LockMode = LOCK | FREE | HELD | AVAIL

  /** The positions in the plan of a list of requests. */
  ghost function Ids(ms: seq<MoveRequest>): seq<nat> {
    seq(|ms|, i requires 0 <= i < |ms| => ms[i].id)
  }

  ghost function RunIds(ht: map<int, MoveRequest>): set<nat> {
    set pid | pid in ht :: ht[pid].id
  }

  lemma RunIdsAdd(ht: map<int, MoveRequest>, pid: int, m: MoveRequest)
    requires pid !in ht
    ensures RunIds(ht[pid := m]) == RunIds(ht) + {m.id}
  {
    var ht' := ht[pid := m];
    assert ht'[pid].id in RunIds(ht');
    assert forall q :: q in ht ==> ht'[q] == ht[q];
    forall x | x in RunIds(ht) ensures x in RunIds(ht') {
      var q :| q in ht && ht[q].id == x;
      assert ht'[q].id in RunIds(ht');
    }
  }

  lemma RunIdsRemove(ht: map<int, MoveRequest>, pid: int)
    requires pid in ht && forall q :: q in ht && q != pid ==> ht[q].id != ht[pid].id
    ensures RunIds(ht - {pid}) == RunIds(ht) - {ht[pid].id}
  {
    var ht' := ht - {pid};
    forall x | x in RunIds(ht) && x != ht[pid].id ensures x in RunIds(ht') {
      var q :| q in ht && ht[q].id == x;
      assert ht'[q].id in RunIds(ht');
    }
  }

  lemma NoChildren(ht: map<int, MoveRequest>)
    requires forall pid :: pid !in ht
    ensures ht == map[]
  {
    forall pid | pid in ht.Keys ensures false {
    }
    assert ht.Keys == {};
  }

  /** A process id that no unreaped child has. */
  method Fork(children: set<int>) returns (pid: int)
    ensures pid !in children
  {
    pid := 1;
    var live := children;
    while true
      invariant forall k :: k in children && k !in live ==> k < pid
      decreases live
    {
      if k :| k in live {
        live := live - {k};
        pid := if pid <= k then k + 1 else pid;
      } else {
        break;
      }
    }
  }

  class MoveRequest {
    const id: nat   // its position in the plan
    const req: Job
    var stage: Stage

    constructor (id: nat, req: Job)
      ensures this.id == id && this.req == req && stage == RwMove
    {
      this.id, this.req := id, req;
      stage := RwMove;
    }

    method StateTransition()
      modifies this`stage
      ensures stage == Transition(old(stage), req.bkexist)
    {
      match stage {
        case RwMove => if req.bkexist { stage := RwBackup; } else { stage := Terminal; }
        case _ => stage := Terminal;
      }
    }

    method StateTerminal() returns (b: bool)
      ensures b <==> stage == Terminal
    {
      b := stage == Terminal;
    }
  }

  class Balancer {
    ghost const reqs: seq<MoveRequest>    // the whole plan
    ghost const servers: set<Server>
    ghost const parts: set<Partition>

    var todo: seq<MoveRequest>            // the list of transactions
    var lockid: int
    var nprocs: int
    var transHt: map<int, MoveRequest>    // the running transactions by process id

    ghost var log: seq<Issue<Volume, Server, Partition>>
    ghost var place: map<Volume, Partition>

    ghost predicate Valid()
      reads this
    {
      && (forall i :: 0 <= i < |reqs| ==> reqs[i].id == i)
      && (forall i :: 0 <= i < |reqs| ==> Knows(reqs[i].req))
      && (forall m :: m in todo ==> m in reqs)
      && (forall pid :: pid in transHt ==> transHt[pid] in reqs)
      && (forall p, q :: p in transHt && q in transHt && p != q ==> transHt[p] != transHt[q])
      && lockid >= 1
    }

    ghost predicate Knows(r: Job) {
      r.sfrom in servers && r.sto in servers && r.pfrom in parts && r.pto in parts
    }

    ghost function Plan(): seq<Job> {
      seq(|reqs|, i requires 0 <= i < |reqs| => reqs[i].req)
    }

    ghost function TodoIds(): seq<nat>
      reads this`todo
    {
      Ids(todo)
    }

    ghost function Stages(): seq<Stage>
      reads reqs
    {
      seq(|reqs|, i requires 0 <= i < |reqs| reads reqs => reqs[i].stage)
    }

    ghost function Locked(): set<Server>
      reads servers`locked
    {
      set s | s in servers && s.locked
    }

    ghost function Marks(): map<Partition, int>
      reads parts`locked
    {
      map p | p in parts && p.locked != 0 :: p.locked
    }

    ghost function Running(): set<nat>
      reads this`transHt
    {
      RunIds(transHt)
    }

    /** The abstract state. */
    ghost function View(pc: Pc, shutdown: bool): State
      reads this, reqs, servers`locked, parts`locked
    {
      Exec(TodoIds(), Stages(), Locked(), Marks(), lockid, nprocs, Running(), shutdown, log, place, pc)
    }

    // ----- the lock operations on a request in its current stage

    predicate QueryAvail(m: MoveRequest)
      reads m`stage, m.req.sfrom`locked, m.req.sto`locked, m.req.pto`locked, this`lockid
    {
      var r := m.req;
      match m.stage
      case RwMove => !r.sfrom.locked && !r.sto.locked && r.pto.locked < lockid
      case RwBackup => !r.sto.locked
      case Terminal => false
    }

    predicate QueryHeld(m: MoveRequest)
      reads m`stage, m.req.sfrom`locked, m.req.sto`locked
    {
      var r := m.req;
      match m.stage
      case RwMove => r.sfrom.locked && r.sto.locked
      case RwBackup => r.sto.locked
      case Terminal => false
    }

    lemma QueriesMatch(m: MoveRequest, pc: Pc, shutdown: bool)
      requires Valid() && m in reqs
      ensures QueryAvail(m) <==> Avail(View(pc, shutdown), m.req, m.stage)
      ensures QueryHeld(m) <==> Held(View(pc, shutdown), m.req, m.stage)
    {
    }

    method SetFlags(m: MoveRequest, value: bool)
      requires Valid() && m in reqs
      modifies m.req.sfrom`locked, m.req.sto`locked
      ensures Locked() == if value then old(Locked()) + Holds(m.req, m.stage) else old(Locked()) - Holds(m.req, m.stage)
    {
      assert Knows(m.req);
      if m.stage == RwMove {
        m.req.sfrom.locked := value;
        m.req.sto.locked := value;
      } else if m.stage == RwBackup {
        m.req.sto.locked := value;
      }
    }

    method SetLocks(m: MoveRequest, value: bool, ghost pc: Pc, ghost shutdown: bool)
      requires Valid() && m in reqs
      modifies this`lockid, m.req.sfrom`locked, m.req.sto`locked
      ensures Valid()
      ensures View(pc, shutdown) == if value then Take(old(View(pc, shutdown)), m.req, m.stage)
                                    else Drop(old(View(pc, shutdown)), m.req, m.stage)
    {
      hide Balancer.Locked, Holds;
      SetFlags(m, value);
      if m.stage == RwMove {
        lockid := lockid + 1;
      }
    }

    method StateLock(m: MoveRequest, mode: LockMode, ghost pc: Pc, ghost shutdown: bool) returns (ok: bool)
      requires Valid() && m in reqs
      modifies this`lockid, m.req.sfrom`locked, m.req.sto`locked, m.req.pfrom`locked
      ensures Valid()
      ensures ok == match mode
        case LOCK => Avail(old(View(pc, shutdown)), m.req, m.stage)
        case AVAIL => Avail(old(View(pc, shutdown)), m.req, m.stage)
        case FREE => Held(old(View(pc, shutdown)), m.req, m.stage)
        case HELD => Held(old(View(pc, shutdown)), m.req, m.stage)
      ensures View(pc, shutdown) == match mode
        case LOCK => if ok then Take(old(View(pc, shutdown)), m.req, m.stage)
                     else Refuse(old(View(pc, shutdown)), m.req, m.stage)
        case AVAIL => if ok then old(View(pc, shutdown)) else Refuse(old(View(pc, shutdown)), m.req, m.stage)
        case FREE => if ok then Drop(old(View(pc, shutdown)), m.req, m.stage) else old(View(pc, shutdown))
        case HELD => old(View(pc, shutdown))
      decreases mode == LOCK || mode == FREE
    {
      QueriesMatch(m, pc, shutdown);
      match mode {
        case LOCK =>
          ok := StateLock(m, AVAIL, pc, shutdown);
          if ok {
            SetLocks(m, true, pc, shutdown);
          }
        case FREE =>
          ok := StateLock(m, HELD, pc, shutdown);
          if ok {
            SetLocks(m, false, pc, shutdown);
          }
        case HELD =>
          ok := QueryHeld(m);
        case AVAIL =>
          ok := QueryAvail(m);
          if !ok {
            MarkSource(m, pc, shutdown);
          }
      }
    }

    /** What a refused query leaves behind. */
    method MarkSource(m: MoveRequest, ghost pc: Pc, ghost shutdown: bool)
      requires Valid() && m in reqs
      modifies m.req.pfrom`locked
      ensures View(pc, shutdown) == Refuse(old(View(pc, shutdown)), m.req, m.stage)
    {
      var r := m.req;
      if m.stage == RwMove && !r.sfrom.locked && r.sto.locked && r.pfrom.locked < lockid {
        r.pfrom.locked := lockid;
      }
    }

    // ----- dispatching and reaping

    lemma RunningMatches(m: MoveRequest)
      requires Valid() && m in reqs
      ensures m.id in Running() <==> exists pid :: pid in transHt && transHt[pid] == m
    {
    }

    /** Forks a child for an available request and locks its servers. */
    method DispatchChild(m: MoveRequest, ghost pc: Pc)
      requires Valid() && m in reqs && m.stage != Terminal && m.id !in Running()
      requires Avail(View(pc, false), m.req, m.stage)
      modifies this`nprocs, this`transHt, this`log, this`lockid, m.req.sfrom`locked, m.req.sto`locked
      modifies m.req.pfrom`locked
      ensures Valid()
      ensures View(pc, false) == Dispatch(old(View(pc, false)), m.req, m.stage, m.id)
    {
      hide Take, Refuse, CommandOf, Balancer.Valid, Balancer.View, Balancer.Running;
      StartChild(m, pc);
      var ok := StateLock(m, LOCK, pc, false);
      if !ok {
        assert false;
      }
    }

    method StartChild(m: MoveRequest, ghost pc: Pc)
      requires Valid() && m in reqs && m.stage != Terminal && m.id !in Running()
      modifies this`nprocs, this`transHt, this`log
      ensures Valid()
      ensures var e := old(View(pc, false));
        View(pc, false) == e.(nprocs := e.nprocs - 1, running := e.running + {m.id},
                              log := e.log + [Issue(m.id, CommandOf(m.req, m.stage))])
    {
      RunningMatches(m);
      ghost var running := Running();
      var pid := Fork(transHt.Keys);
      RunIdsAdd(transHt, pid, m);
      nprocs := nprocs - 1;
      transHt := transHt[pid := m];
      log := log + [Issue(m.id, CommandOf(m.req, m.stage))];
      assert Running() == running + {m.id};
    }

    /** Frees the locks of a request and advances it. */
    method Release(m: MoveRequest, ghost shutdown: bool)
      requires Valid() && m in reqs
      requires Held(View(Wait, shutdown), m.req, m.stage)
      modifies this`lockid, m`stage, m.req.sfrom`locked, m.req.sto`locked, m.req.pfrom`locked
      ensures Valid()
      ensures View(Wait, shutdown) == Drop(old(View(Wait, shutdown)), m.req, old(m.stage)).(
        stage := old(Stages())[m.id := Transition(old(m.stage), m.req.bkexist)])
    {
      ghost var stages := Stages();
      var freed := StateLock(m, FREE, Wait, shutdown);
      if !freed {
        assert false;
      }
      m.StateTransition();
      assert Stages() == stages[m.id := Transition(stages[m.id], m.req.bkexist)];
    }

    /** Collects a child. */
    method ReapChild(pid: int, m: MoveRequest, ok: bool, ghost shutdown: bool)
      requires Valid() && pid in transHt && transHt[pid] == m && m.stage != Terminal
      requires Held(View(Wait, shutdown), m.req, m.stage)
      modifies this`nprocs, this`transHt, this`place, this`lockid
      modifies m`stage, m.req.sfrom`locked, m.req.sto`locked, m.req.pfrom`locked
      ensures Valid() && transHt == old(transHt) - {pid}
      ensures View(Scan(0), shutdown || !ok) == Reap(old(View(Wait, shutdown)), m.req, m.id, ok)
    {
      var moved := ok && m.stage == RwMove;
      Release(m, shutdown);
      Retire(pid, m, moved, shutdown, shutdown || !ok);
    }

    /** The child is no longer running; if it has moved the volume, that is where it went. */
    method Retire(pid: int, m: MoveRequest, moved: bool, ghost before: bool, ghost shutdown: bool)
      requires Valid() && pid in transHt && transHt[pid] == m
      modifies this`nprocs, this`transHt, this`place
      ensures Valid() && transHt == old(transHt) - {pid}
      ensures var e := old(View(Wait, before));
        View(Scan(0), shutdown) == e.(nprocs := e.nprocs + 1, running := e.running - {m.id}, shutdown := shutdown,
                                      place := if moved then e.place[m.req.vol := m.req.pto] else e.place,
                                      pc := Scan(0))
    {
      RunIdsRemove(transHt, pid);
      transHt := transHt - {pid};
      if moved {
        place := place[m.req.vol := m.req.pto];
      }
      nprocs := nprocs + 1;
    }

    /** Snips a terminal transaction out of the list. */
    method Snip(pos: nat, ghost shutdown: bool)
      requires Valid() && pos < |todo|
      modifies this`todo
      ensures Valid()
      ensures View(Scan(pos), shutdown)
           == old(View(Scan(pos), shutdown)).(todo := old(Ids(todo))[..pos] + old(Ids(todo))[pos + 1..])
    {
      ghost var ids := Ids(todo);
      todo := todo[..pos] + todo[pos + 1..];
      assert Ids(todo) == ids[..pos] + ids[pos + 1..];
    }

    // ----- the whole run

    /** The executor before its first step. */
    ghost predicate Fresh()
      reads this, reqs, servers`locked, parts`locked
    {
      && Valid() && todo == reqs && lockid == 1 && transHt == map[] && log == []
      && (forall m :: m in reqs ==> m.stage == RwMove)
      && (forall s :: s in servers ==> !s.locked)
      && (forall p :: p in parts ==> p.locked == 0)
    }

    lemma FreshIsStart()
      requires Fresh()
      ensures Tracks(Start(Plan(), nprocs, place), [], Scan(0), false)
      ensures 0 <= Bound(nprocs, place)
    {
      var e := Start(Plan(), nprocs, place);
      assert TodoIds() == e.todo;
      assert Stages() == e.stage;
      assert Locked() == {};
      assert Marks() == map[];
      assert Running() == {};
    }

    lemma Named(m: MoveRequest)
      requires Valid() && m in reqs
      ensures m.id < |reqs| && reqs[m.id] == m && Plan()[m.id] == m.req && Stages()[m.id] == m.stage
    {
    }

    /** One turn of the dispatch loop at the request at `pos`.  `left` says that the loop is left
        because no child could be forked. */
    method Turn(pos: nat, ghost n: int) returns (next: nat, left: bool)
      requires Valid() && pos < |todo| && nprocs != 0 && Inv(Plan(), n, View(Scan(pos), false))
      modifies this`todo, this`nprocs, this`transHt, this`log, this`lockid, servers`locked, parts`locked
      ensures Valid()
      ensures var e := old(View(Scan(pos), false));
        var ev := if left then ForkFails else Look;
        && Enabled(Plan(), e, ev)
        && View(if left then Wait else Scan(next), false) == Next(Plan(), e, ev)
    {
      ghost var e := View(Scan(pos), false);
      var m := todo[pos];
      Named(m);
      assert e.todo[pos] == m.id;
      next, left := pos, false;
      var terminal := m.StateTerminal();
      if terminal {
        Snip(pos, false);
        return;
      }
      var free := StateLock(m, AVAIL, Scan(pos), false);
      if !free {
        next := pos + 1;
        return;
      }
      var forked: bool := *;
      if !forked {
        left := true;
        return;
      }
      DispatchExclusive(Plan(), e, m.id);
      DispatchChild(m, Scan(pos));
    }

    /** The executor stands, after the run `evs` from `e0`, in the abstract state of its fields. */
    ghost predicate Tracks(e0: State, evs: seq<Event>, pc: Pc, shutdown: bool)
      reads this, reqs, servers`locked, parts`locked
    {
      Valid() && Run(Plan(), e0, evs) && After(Plan(), e0, evs) == View(pc, shutdown)
    }

    /** The longest run from the start of the plan. */
    ghost function Bound(n: int, place0: map<Volume, Partition>): nat {
      Drain.Measure(Plan(), Start(Plan(), n, place0))
    }

    lemma TracksInv(n: int, place0: map<Volume, Partition>, evs: seq<Event>, pc: Pc, shutdown: bool)
      requires Tracks(Start(Plan(), n, place0), evs, pc, shutdown)
      ensures Inv(Plan(), n, View(pc, shutdown)) && |evs| <= Bound(n, place0)
    {
      var e0 := Start(Plan(), n, place0);
      StartInv(Plan(), n, place0);
      Safety(Plan(), n, e0, evs);
      Drain.RunsAreFinite(Plan(), n, e0, evs);
    }

    lemma Track(n: int, place0: map<Volume, Partition>, evs: seq<Event>, e: State, ev: Event, pc: Pc, shutdown: bool)
      requires Valid() && Run(Plan(), Start(Plan(), n, place0), evs)
      requires After(Plan(), Start(Plan(), n, place0), evs) == e
      requires Enabled(Plan(), e, ev) && View(pc, shutdown) == Next(Plan(), e, ev)
      ensures Tracks(Start(Plan(), n, place0), evs + [ev], pc, shutdown)
      ensures |evs| < |evs + [ev]| <= Bound(n, place0)
      ensures Outcome.AllOk(evs + [ev]) <==> Outcome.AllOk(evs) && (ev.Finish? ==> ev.ok)
    {
      Outcome.AllOkOneMore(evs, ev);
      RunExtend(Plan(), Start(Plan(), n, place0), evs, ev);
      TracksInv(n, place0, evs + [ev], pc, shutdown);
    }

    /** The user may interrupt the run, or it may turn out to be out of time. */
    method MayInterrupt(pc: Pc, stop: bool, ghost n: int, ghost place0: map<Volume, Partition>, ghost past: seq<Event>)
      returns (shutdown: bool, ghost evs: seq<Event>)
      requires Tracks(Start(Plan(), n, place0), past, pc, stop) && (pc.Scan? || pc.Wait?)
      requires |past| <= Bound(n, place0)
      ensures Tracks(Start(Plan(), n, place0), evs, pc, shutdown)
      ensures |past| <= |evs| <= Bound(n, place0)
      ensures Outcome.AllOk(evs) <==> Outcome.AllOk(past)
    {
      hide Outcome.AllOk;
      shutdown, evs := stop, past;
      var interrupted: bool := *;
      if interrupted && !stop {
        Track(n, place0, past, View(pc, false), Interrupt, pc, true);
        shutdown, evs := true, past + [Interrupt];
      }
    }

    method TrackedTurn(pos: nat, ghost n: int, ghost place0: map<Volume, Partition>, ghost past: seq<Event>)
      returns (next: nat, left: bool, ghost evs: seq<Event>)
      requires Tracks(Start(Plan(), n, place0), past, Scan(pos), false) && pos < |todo| && nprocs != 0
      modifies this`todo, this`nprocs, this`transHt, this`log, this`lockid, servers`locked, parts`locked
      ensures Tracks(Start(Plan(), n, place0), evs, if left then Wait else Scan(next), false)
      ensures |past| < |evs| <= Bound(n, place0)
      ensures Outcome.AllOk(evs) <==> Outcome.AllOk(past)
    {
      hide Outcome.AllOk;
      ghost var e := View(Scan(pos), false);
      TracksInv(n, place0, past, Scan(pos), false);
      next, left := Turn(pos, n);
      ghost var ev := if left then ForkFails else Look;
      Track(n, place0, past, e, ev, if left then Wait else Scan(next), false);
      evs := past + [ev];
    }

    /** Goes over the list and dispatches everything it can. */
    method ScanList(stop: bool, ghost n: int, ghost place0: map<Volume, Partition>, ghost past: seq<Event>)
      returns (shutdown: bool, ghost evs: seq<Event>)
      requires Tracks(Start(Plan(), n, place0), past, Scan(0), stop) && |past| <= Bound(n, place0)
      modifies this`todo, this`nprocs, this`transHt, this`log, this`lockid, servers`locked, parts`locked
      ensures Tracks(Start(Plan(), n, place0), evs, Wait, shutdown)
      ensures |past| < |evs| <= Bound(n, place0)
      ensures Outcome.AllOk(evs) <==> Outcome.AllOk(past)
    {
      hide Outcome.AllOk;
      shutdown, evs := stop, past;
      var pos: nat, left: bool := 0, false;
      while pos < |todo| && nprocs != 0 && !shutdown && !left
        invariant Tracks(Start(Plan(), n, place0), evs, if left then Wait else Scan(pos), shutdown)
        invariant Outcome.AllOk(evs) <==> Outcome.AllOk(past)
        invariant |past| <= |evs| <= Bound(n, place0) && (left ==> |past| < |evs|)
        decreases Bound(n, place0) - |evs|
      {
        pos, left, evs := TrackedTurn(pos, n, place0, evs);
        shutdown, evs := MayInterrupt(if left then Wait else Scan(pos), shutdown, n, place0, evs);
      }
      if !left {
        Track(n, place0, evs, View(Scan(pos), shutdown), EndScan, Wait, shutdown);
        evs := evs + [EndScan];
      }
    }

    /** Waits for any child to end, with any outcome, and collects it. */
    method WaitForChild(pid: int, shutdown: bool, ghost n: int, ghost place0: map<Volume, Partition>,
                        ghost past: seq<Event>)
      returns (failed: bool, ghost evs: seq<Event>)
      requires Tracks(Start(Plan(), n, place0), past, Wait, shutdown) && pid in transHt
      modifies this`nprocs, this`transHt, this`place, this`lockid
      modifies reqs`stage, servers`locked, parts`locked
      ensures Tracks(Start(Plan(), n, place0), evs, Scan(0), shutdown || failed)
      ensures |past| < |evs| <= Bound(n, place0)
      ensures Outcome.AllOk(evs) <==> Outcome.AllOk(past) && !failed
    {
      hide Outcome.AllOk;
      var m := transHt[pid];
      failed := *;
      ghost var e := View(Wait, shutdown);
      TracksInv(n, place0, past, Wait, shutdown);
      Named(m);
      assert m.id in e.running;
      HoldsHeld(Plan(), e, m.id);
      ReapChild(pid, m, !failed, shutdown);
      Track(n, place0, past, e, Finish(m.id, !failed), Scan(0), shutdown || failed);
      evs := past + [Finish(m.id, !failed)];
    }

    /** There is no child to wait for. */
    ghost method Quit(shutdown: bool, n: int, place0: map<Volume, Partition>, past: seq<Event>)
      returns (evs: seq<Event>)
      requires Tracks(Start(Plan(), n, place0), past, Wait, shutdown) && transHt == map[]
      ensures Tracks(Start(Plan(), n, place0), evs, Done, shutdown) && evs == past + [GiveUp]
      ensures nprocs == n && forall s :: s in servers ==> !s.locked
      ensures Outcome.AllOk(evs) <==> Outcome.AllOk(past)
    {
      TracksInv(n, place0, past, Wait, shutdown);
      Track(n, place0, past, View(Wait, shutdown), GiveUp, Done, shutdown);
      evs := past + [GiveUp];
      assert View(Done, shutdown).locked == {};
      assert forall s :: s in servers ==> s !in Locked();
    }

    /** Dispatches and reaps until there is no child left.  What it did is a run of the transition
        system from the start of the plan, so everything proved of runs holds of it. */
    method DoTransactions() returns (status: int, late: bool, ghost evs: seq<Event>, ghost stopped: bool)
      requires Fresh()
      modifies this`todo, this`nprocs, this`transHt, this`log, this`place, this`lockid
      modifies reqs`stage, servers`locked, parts`locked
      ensures Tracks(Start(Plan(), old(nprocs), old(place)), evs, Done, stopped)
      ensures transHt == map[] && nprocs == old(nprocs) && forall s :: s in servers ==> !s.locked
      ensures status == if Outcome.AllOk(evs) && !late && todo == [] then 0 else 1
      ensures status == 0 ==> multiset(log) == multiset(Echo.SerialLog(Plan(), |Plan()|))
      ensures status == 0 && Outcome.OncePerVolume(Plan()) ==> place == Outcome.SerialPlace(Plan(), old(place))
    {
      hide *;
      Outcome.AllOkNone();
      var shutdown, abend := false, false;
      ghost var n, place0 := nprocs, place;
      FreshIsStart();
      evs := [];
      while true
        invariant Tracks(Start(Plan(), n, place0), evs, Scan(0), shutdown)
        invariant |evs| <= Bound(n, place0)
        invariant Outcome.AllOk(evs) <==> !abend
        decreases Bound(n, place0) - |evs|
      {
        shutdown, evs := MayInterrupt(Scan(0), shutdown, n, place0, evs);
        shutdown, evs := ScanList(shutdown, n, place0, evs);
        if pid :| pid in transHt {
          var failed;
          failed, evs := WaitForChild(pid, shutdown, n, place0, evs);
          abend, shutdown := abend || failed, shutdown || failed;
        } else {
          NoChildren(transHt);
          break;
        }
      }
      evs := Quit(shutdown, n, place0, evs);
      stopped := shutdown;
      late := *;
      status := if abend || late || todo != [] then 1 else 0;
      if status == 0 {
        AllDone(n, place0, evs, stopped);
      }
    }

    lemma AllDone(n: int, place0: map<Volume, Partition>, evs: seq<Event>, stopped: bool)
      requires Tracks(Start(Plan(), n, place0), evs, Done, stopped) && todo == [] && Outcome.AllOk(evs)
      ensures multiset(log) == multiset(Echo.SerialLog(Plan(), |Plan()|))
      ensures Outcome.OncePerVolume(Plan()) ==> place == Outcome.SerialPlace(Plan(), place0)
    {
      assert View(Done, stopped).todo == [];
      Echo.DrainedRunIssuesAll(Plan(), n, place0, evs);
      if Outcome.OncePerVolume(Plan()) {
        Outcome.DrainedRunIsSerial(Plan(), n, place0, evs);
      }
    }

    // ----- echo mode

    /** How far echo mode has printed the transactions: all before the `t`th, and of that one what
        precedes its present stage. */
    ghost predicate Printed(printed: seq<Issue<Volume, Server, Partition>>, t: nat)
      reads this, reqs
    {
      && Valid() && t <= |reqs| && todo == reqs[t..]
      && (forall i :: t < i < |reqs| ==> reqs[i].stage == RwMove)
      && (t < |reqs| && reqs[t].stage == RwBackup ==> reqs[t].req.bkexist)
      && printed == Echo.SerialLog(Plan(), t)
         + if t == |reqs| then [] else Echo.Tag(t, Issued(reqs[t].req, reqs[t].stage, false))
    }

    /** Echo mode takes every transaction through its states without locking or forking, and prints
        the serial log, or as much of it as there is time for before the user interrupts. */
    method EchoTransactions() returns (printed: seq<Issue<Volume, Server, Partition>>, aborted: bool)
      requires Fresh()
      modifies this`todo, this`lockid, reqs`stage, servers`locked, parts`locked
      ensures Valid() && printed <= Echo.SerialLog(Plan(), |Plan()|)
      ensures !aborted && nprocs != 0 ==> todo == [] && printed == Echo.SerialLog(Plan(), |Plan()|)
    {
      printed, aborted := [], *;
      ghost var t := 0;
      EchoStart();
      while todo != [] && nprocs != 0 && !aborted
        invariant Printed(printed, t) && Unlocked()
        decreases EchoLeft()
      {
        printed, t := EchoTurn(printed, t);
        aborted := *;
      }
      EchoPrefix(printed, t);
      if todo == [] {
        EchoEnd(printed, t);
      }
    }

    lemma EchoPrefix(printed: seq<Issue<Volume, Server, Partition>>, t: nat)
      requires Printed(printed, t)
      ensures printed <= Echo.SerialLog(Plan(), |Plan()|)
    {
      if t < |reqs| {
        Echo.PartOfSerial(Plan(), t, Issued(reqs[t].req, reqs[t].stage, false));
      }
    }

    ghost function EchoLeft(): nat
      reads this`todo, todo
    {
      5 * |todo| + if todo == [] then 0 else Drain.Weight(todo[0].stage, false)
    }

    /** Snips a terminal transaction, or prints and advances one that is not. */
    method EchoTurn(past: seq<Issue<Volume, Server, Partition>>, ghost t: nat)
      returns (printed: seq<Issue<Volume, Server, Partition>>, ghost t': nat)
      requires Printed(past, t) && Unlocked() && todo != []
      modifies this`todo, this`lockid, reqs`stage, servers`locked, parts`locked
      ensures Printed(printed, t') && Unlocked() && EchoLeft() < old(EchoLeft())
    {
      hide *;
      var m := todo[0];
      printed, t' := past, t;
      EchoHead(past, t);
      var terminal := m.StateTerminal();
      if terminal {
        EchoSnip(t, past);
        t' := t + 1;
      } else {
        EchoAvail(m, t, past);
        printed := EchoOne(m, t, past);
      }
    }

    ghost predicate Unlocked()
      reads this`lockid, servers`locked, parts`locked
    {
      lockid == 1 && Locked() == {} && Marks() == map[]
    }

    lemma EchoStart()
      requires Fresh()
      ensures Printed([], 0) && Unlocked()
    {
      assert Locked() == {} && Marks() == map[];
      if reqs != [] {
        assert Echo.Tag(0, Issued(reqs[0].req, reqs[0].stage, false)) == [];
      }
    }

    lemma EchoHead(printed: seq<Issue<Volume, Server, Partition>>, t: nat)
      requires Printed(printed, t) && todo != []
      ensures t < |reqs| && todo[0] == reqs[t]
    {
    }

    lemma EchoEnd(printed: seq<Issue<Volume, Server, Partition>>, t: nat)
      requires Printed(printed, t) && todo == []
      ensures printed == Echo.SerialLog(Plan(), |Plan()|)
    {
      assert t == |reqs| == |Plan()|;
    }

    /** Nothing is ever locked in echo mode, so every transaction is available. */
    method EchoAvail(m: MoveRequest, ghost t: nat, ghost printed: seq<Issue<Volume, Server, Partition>>)
      requires Printed(printed, t) && m in reqs && m.stage != Terminal && Unlocked()
      modifies this`lockid, servers`locked, parts`locked
      ensures Printed(printed, t) && Unlocked()
    {
      ghost var e := View(Scan(0), false);
      var free := StateLock(m, AVAIL, Scan(0), false);
      assert free && View(Scan(0), false) == e;
    }

    method EchoSnip(ghost t: nat, ghost printed: seq<Issue<Volume, Server, Partition>>)
      requires Printed(printed, t) && t < |reqs| && reqs[t].stage == Terminal
      modifies this`todo
      ensures Printed(printed, t + 1) && EchoLeft() < old(EchoLeft())
    {
      todo := todo[1..];
      ghost var script := Script(reqs[t].req);
      assert Echo.SerialLog(Plan(), t + 1) == Echo.SerialLog(Plan(), t) + Echo.Tag(t, script);
      if t + 1 < |reqs| {
        assert Echo.Tag(t + 1, Issued(reqs[t + 1].req, reqs[t + 1].stage, false)) == [];
      }
    }

    /** Prints the command of a transaction that is not terminal, and advances it. */
    method EchoOne(m: MoveRequest, ghost t: nat, past: seq<Issue<Volume, Server, Partition>>)
      returns (printed: seq<Issue<Volume, Server, Partition>>)
      requires Printed(past, t) && t < |reqs| && m == reqs[t] && m.stage != Terminal
      modifies m`stage
      ensures Printed(printed, t) && EchoLeft() < old(EchoLeft())
    {
      printed := past + [Issue(m.id, CommandOf(m.req, m.stage))];
      m.StateTransition();
    }
  }
}
