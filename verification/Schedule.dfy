/** The executor as a transition system: scan the list and dispatch what the locks allow, wait
    for a child, free its locks, and scan again.  Children finish in any order; the transactions
    of a plan are named by their positions in it. */
module Schedule {
  import opened Transactions

  /** Where the executor stands.  The last two are its two fatal exits. */
  datatype Pc = Scan(pos: nat) | Wait | Done | LockFailed | FreeFailed

  datatype Issue<V, S, P> = Issue(tx: nat, cmd: Command<V, S, P>)

  datatype Exec<V(==), S(==), P(==)> = Exec(
    todo: seq<nat>,              // the list of transactions not yet snipped
    stage: seq<Stage>,           // the stage of every transaction of the plan
    locked: set<S>,              // the servers whose lock flag is set
    mark: map<P, int>,           // the lock number each partition was last marked with
    lockid: int,                 // the increasing lock number
    nprocs: int,                 // free slots
    running: set<nat>,           // the transactions with a child
    shutdown: bool,
    log: seq<Issue<V, S, P>>,    // the commands dispatched so far
    place: map<V, P>,            // where the volumes really are
    pc: Pc)

  datatype Event =
    | Look                          // one turn of the dispatch loop
    | ForkFails                     // a dispatch that got no child; the loop is left
    | EndScan                       // the dispatch loop's test fails
    | Interrupt                     // out of time, or interrupted by the user
    | Finish(tx: nat, ok: bool)     // the child of a transaction is reaped
    | GiveUp                        // there is no child to wait for

  function Mark<V, S, P>(e: Exec<V, S, P>, p: P): int {
    if p in e.mark then e.mark[p] else 0
  }

  // ----- the lock operations

  predicate Avail<V, S, P>(e: Exec<V, S, P>, r: Request<V, S, P>, stage: Stage) {
    match stage
    case RwMove => r.sfrom !in e.locked && r.sto !in e.locked && Mark(e, r.pto) < e.lockid
    case RwBackup => r.sto !in e.locked
    case Terminal => false
  }

  /** A refused query leaves a mark on the source partition when only the destination server is
      busy, so that no later transaction puts another volume there first. */
  function Refuse<V, S, P>(e: Exec<V, S, P>, r: Request<V, S, P>, stage: Stage): Exec<V, S, P> {
    if stage == RwMove && r.sfrom !in e.locked && r.sto in e.locked && Mark(e, r.pfrom) < e.lockid
    then e.(mark := e.mark[r.pfrom := e.lockid])
    else e
  }

  predicate Held<V, S, P>(e: Exec<V, S, P>, r: Request<V, S, P>, stage: Stage) {
    match stage
    case RwMove => r.sfrom in e.locked && r.sto in e.locked
    case RwBackup => r.sto in e.locked
    case Terminal => false
  }

  /** Only the locks of a move advance the lock number. */
  function NextLockid(lockid: int, stage: Stage): int {
    if stage == RwMove then lockid + 1 else lockid
  }

  function Take<V, S, P>(e: Exec<V, S, P>, r: Request<V, S, P>, stage: Stage): Exec<V, S, P> {
    e.(locked := e.locked + Holds(r, stage), lockid := NextLockid(e.lockid, stage))
  }

  function Drop<V, S, P>(e: Exec<V, S, P>, r: Request<V, S, P>, stage: Stage): Exec<V, S, P> {
    e.(locked := e.locked - Holds(r, stage), lockid := NextLockid(e.lockid, stage))
  }

  // ----- the steps

  predicate Known<V, S, P>(plan: seq<Request<V, S, P>>, e: Exec<V, S, P>, t: nat) {
    t < |plan| && |e.stage| == |plan|
  }

  predicate Scanning<V, S, P>(plan: seq<Request<V, S, P>>, e: Exec<V, S, P>) {
    && e.pc.Scan? && e.pc.pos < |e.todo| && e.nprocs != 0 && !e.shutdown
    && Known(plan, e, e.todo[e.pc.pos])
  }

  predicate Enabled<V, S, P>(plan: seq<Request<V, S, P>>, e: Exec<V, S, P>, ev: Event) {
    match ev
    case Look => Scanning(plan, e)
    case ForkFails => Scanning(plan, e) && var t := e.todo[e.pc.pos]; Avail(e, plan[t], e.stage[t])
    case EndScan => e.pc.Scan? && (e.pc.pos >= |e.todo| || e.nprocs == 0 || e.shutdown)
    case Interrupt => (e.pc.Scan? || e.pc.Wait?) && !e.shutdown
    case Finish(t, ok) => e.pc.Wait? && t in e.running && Known(plan, e, t)
    case GiveUp => e.pc.Wait? && e.running == {}
  }

  function Dispatch<V, S, P>(e: Exec<V, S, P>, r: Request<V, S, P>, stage: Stage, t: nat): Exec<V, S, P>
    requires stage != Terminal
  {
    var e' := e.(nprocs := e.nprocs - 1, running := e.running + {t},
                 log := e.log + [Issue(t, CommandOf(r, stage))]);
    if Avail(e', r, stage) then Take(e', r, stage) else Refuse(e', r, stage).(pc := LockFailed)
  }

  function LookAt<V, S, P>(plan: seq<Request<V, S, P>>, e: Exec<V, S, P>): Exec<V, S, P>
    requires Scanning(plan, e)
  {
    var i := e.pc.pos;
    var t := e.todo[i];
    var r, stage := plan[t], e.stage[t];
    if stage == Terminal then e.(todo := e.todo[..i] + e.todo[i + 1..])
    else if Avail(e, r, stage) then Dispatch(e, r, stage, t)
    else Refuse(e, r, stage).(pc := Scan(i + 1))
  }

  function Reap<V, S, P>(e: Exec<V, S, P>, r: Request<V, S, P>, t: nat, ok: bool): Exec<V, S, P>
    requires t < |e.stage|
  {
    var stage := e.stage[t];
    var e' := e.(shutdown := e.shutdown || !ok,
                 place := if ok && stage == RwMove then e.place[r.vol := r.pto] else e.place);
    if !Held(e', r, stage) then e'.(pc := FreeFailed)
    else Drop(e', r, stage).(stage := e.stage[t := Transition(stage, r.bkexist)],
                             nprocs := e.nprocs + 1, running := e.running - {t}, pc := Scan(0))
  }

  function Next<V, S, P>(plan: seq<Request<V, S, P>>, e: Exec<V, S, P>, ev: Event): Exec<V, S, P>
    requires Enabled(plan, e, ev)
  {
    match ev
    case Look => LookAt(plan, e)
    case ForkFails => e.(pc := Wait)
    case EndScan => e.(pc := Wait)
    case Interrupt => e.(shutdown := true)
    case Finish(t, ok) => Reap(e, plan[t], t, ok)
    case GiveUp => e.(pc := Done)
  }

  // ----- runs

  function Start<V, S, P>(plan: seq<Request<V, S, P>>, nprocs: int, place: map<V, P>): Exec<V, S, P> {
    Exec(seq(|plan|, i => i), seq(|plan|, i => RwMove), {}, map[], 1, nprocs, {}, false, [], place, Scan(0))
  }

  predicate Run<V, S, P>(plan: seq<Request<V, S, P>>, e: Exec<V, S, P>, evs: seq<Event>)
    decreases evs
  {
    evs == [] || (Enabled(plan, e, evs[0]) && Run(plan, Next(plan, e, evs[0]), evs[1..]))
  }

  function After<V, S, P>(plan: seq<Request<V, S, P>>, e: Exec<V, S, P>, evs: seq<Event>): Exec<V, S, P>
    requires Run(plan, e, evs)
    decreases evs
  {
    if evs == [] then e else After(plan, Next(plan, e, evs[0]), evs[1..])
  }

  /** Runs compose. */
  lemma {:induction false} RunAppend<V, S, P>(plan: seq<Request<V, S, P>>, e: Exec<V, S, P>, xs: seq<Event>,
                                              ys: seq<Event>)
    requires Run(plan, e, xs) && Run(plan, After(plan, e, xs), ys)
    ensures Run(plan, e, xs + ys) && After(plan, e, xs + ys) == After(plan, After(plan, e, xs), ys)
    decreases xs
  {
    hide Enabled, Next;
    if xs == [] {
      assert xs + ys == ys;
    } else {
      assert (xs + ys)[0] == xs[0] && (xs + ys)[1..] == xs[1..] + ys;
      RunAppend(plan, Next(plan, e, xs[0]), xs[1..], ys);
    }
  }

  lemma RunOne<V, S, P>(plan: seq<Request<V, S, P>>, e: Exec<V, S, P>, ev: Event)
    requires Enabled(plan, e, ev)
    ensures Run(plan, e, [ev]) && After(plan, e, [ev]) == Next(plan, e, ev)
  {
    hide Enabled, Next;
    assert [ev][0] == ev && [ev][1..] == [];
    assert Run(plan, Next(plan, e, ev), []);
  }

  lemma RunExtend<V, S, P>(plan: seq<Request<V, S, P>>, e: Exec<V, S, P>, evs: seq<Event>, ev: Event)
    requires Run(plan, e, evs) && Enabled(plan, After(plan, e, evs), ev)
    ensures Run(plan, e, evs + [ev]) && After(plan, e, evs + [ev]) == Next(plan, After(plan, e, evs), ev)
  {
    var e' := After(plan, e, evs);
    RunOne(plan, e', ev);
    RunAppend(plan, e, evs, [ev]);
    hide Run, After, Enabled, Next;
  }

  // ----- what every step keeps

  /** The servers held by the running transactions. */
  ghost function HeldBy<V, S, P>(plan: seq<Request<V, S, P>>, stage: seq<Stage>, running: set<nat>): set<S> {
    set t, s | t in running && t < |plan| && t < |stage| && s in Holds(plan[t], stage[t]) :: s
  }

  /** The commands logged for one transaction. */
  ghost function Project<V, S, P>(log: seq<Issue<V, S, P>>, t: nat): seq<Command<V, S, P>> {
    if log == [] then []
    else Project(log[..|log| - 1], t) + if log[|log| - 1].tx == t then [log[|log| - 1].cmd] else []
  }

  /** How much of its script a transaction has issued. */
  ghost function Issued<V, S, P>(r: Request<V, S, P>, stage: Stage, running: bool): seq<Command<V, S, P>> {
    match stage
    case RwMove => if running then [MoveCommand(r)] else []
    case RwBackup => if running then [MoveCommand(r), Backup(r.vol)] else [MoveCommand(r)]
    case Terminal => Script(r)
  }

  /** Mutual exclusion: lock flags say exactly what the running transactions hold, and no two of
      them share a server. */
  ghost predicate Exclusive<V, S, P>(plan: seq<Request<V, S, P>>, e: Exec<V, S, P>) {
    && |e.stage| == |plan|
    && (forall t :: t in e.running ==> t < |plan| && e.stage[t] != Terminal)
    && e.locked == HeldBy(plan, e.stage, e.running)
    && (forall t, u :: t in e.running && u in e.running && t != u ==>
          Holds(plan[t], e.stage[t]) !! Holds(plan[u], e.stage[u]))
  }

  /** The list holds, in plan order, every transaction that is not terminal. */
  ghost predicate ListOk<V, S, P>(plan: seq<Request<V, S, P>>, e: Exec<V, S, P>) {
    && |e.stage| == |plan|
    && (forall i :: 0 <= i < |e.todo| ==> e.todo[i] < |plan|)
    && (forall i, j :: 0 <= i < j < |e.todo| ==> e.todo[i] < e.todo[j])
    && (forall t :: 0 <= t < |plan| && t !in e.todo ==> e.stage[t] == Terminal)
    && (forall t :: 0 <= t < |plan| && e.stage[t] == RwBackup ==> plan[t].bkexist)
  }

  ghost predicate LogOk<V, S, P>(plan: seq<Request<V, S, P>>, e: Exec<V, S, P>) {
    && |e.stage| == |plan|
    && (forall t :: 0 <= t < |plan| ==> Project(e.log, t) == Issued(plan[t], e.stage[t], t in e.running))
    && (forall i :: 0 <= i < |e.log| ==> e.log[i].tx < |plan|)
  }

  ghost predicate MarksOk<V, S, P>(e: Exec<V, S, P>) {
    e.lockid >= 1 && forall p :: p in e.mark ==> e.mark[p] <= e.lockid
  }

  ghost predicate Inv<V, S, P>(plan: seq<Request<V, S, P>>, n: int, e: Exec<V, S, P>) {
    && Exclusive(plan, e)
    && ListOk(plan, e)
    && LogOk(plan, e)
    && MarksOk(e)
    && e.nprocs + |e.running| == n
    && (n >= 0 ==> e.nprocs >= 0)
    && !e.pc.LockFailed? && !e.pc.FreeFailed?
    && (e.pc.Done? ==> e.running == {})
  }

  lemma StartInv<V, S, P>(plan: seq<Request<V, S, P>>, n: int, place: map<V, P>)
    ensures Inv(plan, n, Start(plan, n, place))
  {
    var e := Start(plan, n, place);
    forall t | 0 <= t < |plan| ensures t in e.todo {
      assert e.todo[t] == t;
    }
  }

  lemma HeldByMore<V, S, P>(plan: seq<Request<V, S, P>>, stage: seq<Stage>, running: set<nat>, t: nat)
    requires t < |plan| && t < |stage|
    ensures HeldBy(plan, stage, running + {t}) == HeldBy(plan, stage, running) + Holds(plan[t], stage[t])
  {
    hide Holds;
    var lhs, rhs := HeldBy(plan, stage, running + {t}), HeldBy(plan, stage, running) + Holds(plan[t], stage[t]);
    forall s | s in lhs ensures s in rhs {
      var u :| u in running + {t} && u < |plan| && u < |stage| && s in Holds(plan[u], stage[u]);
    }
    forall s | s in rhs ensures s in lhs {
      if s in Holds(plan[t], stage[t]) {
        assert t in running + {t};
      } else {
        var u :| u in running && u < |plan| && u < |stage| && s in Holds(plan[u], stage[u]);
        assert u in running + {t};
      }
    }
  }

  lemma HeldByAll<V, S, P>(plan: seq<Request<V, S, P>>, stage: seq<Stage>, running: set<nat>)
    ensures forall u :: u in running && u < |plan| && u < |stage| ==>
      Holds(plan[u], stage[u]) <= HeldBy(plan, stage, running)
  {
    hide Holds;
  }

  lemma DispatchExclusive<V, S, P>(plan: seq<Request<V, S, P>>, e: Exec<V, S, P>, t: nat)
    requires Exclusive(plan, e) && t < |plan| && e.stage[t] != Terminal && Avail(e, plan[t], e.stage[t])
    ensures t !in e.running
    ensures Exclusive(plan, Dispatch(e, plan[t], e.stage[t], t))
    ensures !Dispatch(e, plan[t], e.stage[t], t).pc.LockFailed? || e.pc.LockFailed?
  {
    assert plan[t].sto in Holds(plan[t], e.stage[t]);
    assert Holds(plan[t], e.stage[t]) !! e.locked;
    HeldByAll(plan, e.stage, e.running);
    HeldByMore(plan, e.stage, e.running, t);
    hide HeldBy, Holds;
  }

  lemma ReapExclusive<V, S, P>(plan: seq<Request<V, S, P>>, e: Exec<V, S, P>, t: nat, ok: bool)
    requires Exclusive(plan, e) && t in e.running
    ensures Held(e, plan[t], e.stage[t])
    ensures Exclusive(plan, Reap(e, plan[t], t, ok))
  {
    HoldsHeld(plan, e, t);
    var e' := Reap(e, plan[t], t, ok);
    assert forall u :: u in e'.running ==> u in e.running && u != t && e'.stage[u] == e.stage[u];
    ReapLocked(plan, e.stage, e.running, t, e'.stage);
  }

  lemma HoldsHeld<V, S, P>(plan: seq<Request<V, S, P>>, e: Exec<V, S, P>, t: nat)
    requires Exclusive(plan, e) && t in e.running
    ensures Held(e, plan[t], e.stage[t])
  {
    var h := Holds(plan[t], e.stage[t]);
    assert forall s :: s in h ==> s in HeldBy(plan, e.stage, e.running);
    assert plan[t].sto in h;
    assert e.stage[t] == RwMove ==> plan[t].sfrom in h;
  }

  lemma ReapLocked<V, S, P>(plan: seq<Request<V, S, P>>, stage: seq<Stage>, running: set<nat>, t: nat,
                            stage': seq<Stage>)
    requires |stage| == |plan| == |stage'| && t in running
    requires forall u :: u in running ==> u < |plan|
    requires forall u :: u in running && u != t ==> Holds(plan[u], stage[u]) !! Holds(plan[t], stage[t])
    requires forall u :: u in running && u != t ==> stage'[u] == stage[u]
    ensures HeldBy(plan, stage', running - {t}) == HeldBy(plan, stage, running) - Holds(plan[t], stage[t])
  {
    var lhs, rhs := HeldBy(plan, stage', running - {t}), HeldBy(plan, stage, running) - Holds(plan[t], stage[t]);
    forall s | s in lhs ensures s in rhs {
      var u :| u in running - {t} && s in Holds(plan[u], stage'[u]);
    }
    forall s | s in rhs ensures s in lhs {
      var u :| u in running && s in Holds(plan[u], stage[u]);
    }
  }

  lemma ProjectAppend<V, S, P>(log: seq<Issue<V, S, P>>, x: Issue<V, S, P>, t: nat)
    ensures Project(log + [x], t) == Project(log, t) + if x.tx == t then [x.cmd] else []
  {
    assert (log + [x])[..|log|] == log;
  }

  lemma DispatchLog<V, S, P>(plan: seq<Request<V, S, P>>, e: Exec<V, S, P>, t: nat)
    requires LogOk(plan, e) && t < |plan| && e.stage[t] != Terminal && t !in e.running
    ensures LogOk(plan, Dispatch(e, plan[t], e.stage[t], t))
  {
    var e' := Dispatch(e, plan[t], e.stage[t], t);
    var x := Issue(t, CommandOf(plan[t], e.stage[t]));
    assert e'.log == e.log + [x] && e'.stage == e.stage && e'.running == e.running + {t};
    forall u | 0 <= u < |plan|
      ensures Project(e'.log, u) == Issued(plan[u], e'.stage[u], u in e'.running)
    {
      ProjectAppend(e.log, x, u);
    }
  }

  lemma ReapLog<V, S, P>(plan: seq<Request<V, S, P>>, e: Exec<V, S, P>, t: nat, ok: bool)
    requires LogOk(plan, e) && ListOk(plan, e) && t < |plan| && t in e.running && Held(e, plan[t], e.stage[t])
    ensures LogOk(plan, Reap(e, plan[t], t, ok))
    ensures ListOk(plan, Reap(e, plan[t], t, ok))
  {
    var e' := Reap(e, plan[t], t, ok);
    assert e'.log == e.log && e'.todo == e.todo;
    forall u | 0 <= u < |plan|
      ensures Project(e'.log, u) == Issued(plan[u], e'.stage[u], u in e'.running)
    {
      assert Project(e.log, u) == Issued(plan[u], e.stage[u], u in e.running);
    }
  }

  lemma LogFrame<V, S, P>(plan: seq<Request<V, S, P>>, e: Exec<V, S, P>, e': Exec<V, S, P>)
    requires LogOk(plan, e) && e'.log == e.log && e'.stage == e.stage && e'.running == e.running
    ensures LogOk(plan, e')
  {
    forall u | 0 <= u < |plan|
      ensures Project(e'.log, u) == Issued(plan[u], e'.stage[u], u in e'.running)
    {
      assert Project(e.log, u) == Issued(plan[u], e.stage[u], u in e.running);
    }
  }

  lemma SnipList<V, S, P>(plan: seq<Request<V, S, P>>, e: Exec<V, S, P>)
    requires ListOk(plan, e) && Scanning(plan, e) && e.stage[e.todo[e.pc.pos]] == Terminal
    ensures ListOk(plan, LookAt(plan, e))
  {
    var i := e.pc.pos;
    var e' := LookAt(plan, e);
    forall u | u in e.todo && u != e.todo[i] ensures u in e'.todo {
      var k :| 0 <= k < |e.todo| && e.todo[k] == u;
      assert e'.todo[if k < i then k else k - 1] == u;
    }
  }

  lemma DispatchKeepsInv<V, S, P>(plan: seq<Request<V, S, P>>, n: int, e: Exec<V, S, P>, t: nat)
    requires Inv(plan, n, e) && t < |plan| && e.stage[t] != Terminal && Avail(e, plan[t], e.stage[t])
    requires e.nprocs != 0 && e.pc.Scan?
    ensures Inv(plan, n, Dispatch(e, plan[t], e.stage[t], t))
  {
    DispatchExclusive(plan, e, t);
    DispatchLog(plan, e, t);
    DispatchRest(plan, n, e, t);
  }

  lemma DispatchRest<V, S, P>(plan: seq<Request<V, S, P>>, n: int, e: Exec<V, S, P>, t: nat)
    requires ListOk(plan, e) && MarksOk(e) && t < |plan| && e.stage[t] != Terminal && t !in e.running
    requires Avail(e, plan[t], e.stage[t])
    ensures var e' := Dispatch(e, plan[t], e.stage[t], t);
      && ListOk(plan, e') && MarksOk(e') && e'.pc == e.pc
      && e'.nprocs == e.nprocs - 1 && |e'.running| == |e.running| + 1
  {
    var e' := Dispatch(e, plan[t], e.stage[t], t);
    assert e'.todo == e.todo && e'.stage == e.stage && e'.mark == e.mark && e'.lockid >= e.lockid;
    assert |e.running + {t}| == |e.running| + 1;
  }

  lemma RefuseKeepsInv<V, S, P>(plan: seq<Request<V, S, P>>, n: int, e: Exec<V, S, P>, r: Request<V, S, P>,
                                stage: Stage, i: nat)
    requires Inv(plan, n, e)
    ensures Inv(plan, n, Refuse(e, r, stage).(pc := Scan(i)))
  {
    LogFrame(plan, e, Refuse(e, r, stage).(pc := Scan(i)));
  }

  lemma SnipKeepsInv<V, S, P>(plan: seq<Request<V, S, P>>, n: int, e: Exec<V, S, P>)
    requires Inv(plan, n, e) && Scanning(plan, e) && e.stage[e.todo[e.pc.pos]] == Terminal
    ensures Inv(plan, n, LookAt(plan, e))
  {
    SnipList(plan, e);
    LogFrame(plan, e, LookAt(plan, e));
  }

  lemma LookKeepsInv<V, S, P>(plan: seq<Request<V, S, P>>, n: int, e: Exec<V, S, P>)
    requires Inv(plan, n, e) && Scanning(plan, e)
    ensures Inv(plan, n, LookAt(plan, e))
  {
    var t := e.todo[e.pc.pos];
    if e.stage[t] == Terminal {
      SnipKeepsInv(plan, n, e);
    } else if Avail(e, plan[t], e.stage[t]) {
      DispatchKeepsInv(plan, n, e, t);
    } else {
      RefuseKeepsInv(plan, n, e, plan[t], e.stage[t], e.pc.pos + 1);
    }
  }

  lemma StepKeepsInv<V, S, P>(plan: seq<Request<V, S, P>>, n: int, e: Exec<V, S, P>, ev: Event)
    requires Inv(plan, n, e) && Enabled(plan, e, ev)
    ensures Inv(plan, n, Next(plan, e, ev))
  {
    match ev
    case Look => LookKeepsInv(plan, n, e);
    case Finish(t, ok) =>
      ReapExclusive(plan, e, t, ok);
      ReapLog(plan, e, t, ok);
    case _ =>
  }

  /** What a step does to the stages and to the volumes. */
  lemma StepEffect<V, S, P>(plan: seq<Request<V, S, P>>, e: Exec<V, S, P>, ev: Event)
    requires Exclusive(plan, e) && Enabled(plan, e, ev)
    ensures var e' := Next(plan, e, ev);
      if ev.Finish? then
        var r, stage := plan[ev.tx], e.stage[ev.tx];
        && stage != Terminal && e'.pc == Scan(0) && e'.todo == e.todo
        && e'.stage == e.stage[ev.tx := Transition(stage, r.bkexist)]
        && e'.running == e.running - {ev.tx}
        && e'.place == if ev.ok && stage == RwMove then e.place[r.vol := r.pto] else e.place
      else e'.stage == e.stage && e'.place == e.place
  {
    if ev.Finish? {
      HoldsHeld(plan, e, ev.tx);
    }
  }

  /** In every interleaving: exclusion, conservation of slots, one move and then one backup per
      transaction, and neither fatal exit is ever reached. */
  lemma {:induction false} Safety<V, S, P>(plan: seq<Request<V, S, P>>, n: int, e: Exec<V, S, P>, evs: seq<Event>)
    requires Inv(plan, n, e) && Run(plan, e, evs)
    ensures Inv(plan, n, After(plan, e, evs))
    decreases evs
  {
    if evs != [] {
      StepKeepsInv(plan, n, e, evs[0]);
      Safety(plan, n, Next(plan, e, evs[0]), evs[1..]);
    }
  }
}
