/** Termination and liveness: every run is finite, and when an undisturbed run is sure to empty
    the list. */
module Drain {
  import opened Transactions
  import opened Schedule

  // ----- every run is finite

  function Weight(stage: Stage, running: bool): nat {
    (match stage case RwMove => 4 case RwBackup => 2 case Terminal => 0)
    - if running && stage != Terminal then 1 else 0
  }

  /** The work left in the first `k` transactions. */
  ghost function Work(stage: seq<Stage>, running: set<nat>, k: nat): nat
    requires k <= |stage|
  {
    if k == 0 then 0 else Work(stage, running, k - 1) + Weight(stage[k - 1], (k - 1) in running)
  }

  lemma {:induction false} WorkDrops(stage: seq<Stage>, running: set<nat>, stage': seq<Stage>, running': set<nat>,
                                     k: nat, t: nat)
    requires k <= |stage| == |stage'| && t < |stage|
    requires forall u :: 0 <= u < |stage| && u != t ==> stage[u] == stage'[u] && (u in running <==> u in running')
    requires Weight(stage'[t], t in running') < Weight(stage[t], t in running)
    ensures Work(stage', running', k) + (if t < k then 1 else 0) <= Work(stage, running, k)
  {
    if k > 0 {
      WorkDrops(stage, running, stage', running', k - 1, t);
    }
  }

  ghost function PcRank<V, S, P>(e: Exec<V, S, P>): nat {
    match e.pc
    case Scan(pos) => if pos <= |e.todo| then |e.todo| - pos + 2 else 2
    case Wait => 1
    case _ => 0
  }

  /** Falls at every step of a run. */
  ghost function Measure<V, S, P>(plan: seq<Request<V, S, P>>, e: Exec<V, S, P>): nat
    requires |e.stage| == |plan|
  {
    (Work(e.stage, e.running, |plan|) + |e.todo|) * (|plan| + 3) + PcRank(e) + if e.shutdown then 0 else 1
  }

  ghost predicate ListFits<V, S, P>(plan: seq<Request<V, S, P>>, e: Exec<V, S, P>) {
    |e.todo| <= |plan|
  }

  lemma MeasureFalls(k: nat, w: nat, w': nat, rank: nat, rank': nat)
    requires w' < w && rank' <= k - 1
    ensures w' * k + rank' < w * k + rank
  {
    assert w * k >= (w' + 1) * k == w' * k + k;
  }

  lemma FinishFalls<V, S, P>(plan: seq<Request<V, S, P>>, e: Exec<V, S, P>, t: nat, ok: bool)
    requires Exclusive(plan, e) && ListFits(plan, e) && Enabled(plan, e, Finish(t, ok))
    ensures var e' := Next(plan, e, Finish(t, ok));
      |e'.stage| == |plan| && ListFits(plan, e') && Measure(plan, e') < Measure(plan, e)
  {
    StepEffect(plan, e, Finish(t, ok));
    var e' := Next(plan, e, Finish(t, ok));
    WorkDrops(e.stage, e.running, e'.stage, e'.running, |plan|, t);
    MeasureFalls(|plan| + 3, Work(e.stage, e.running, |plan|) + |e.todo|,
                 Work(e'.stage, e'.running, |plan|) + |e'.todo|, PcRank(e), PcRank(e'));
  }

  lemma LookFalls<V, S, P>(plan: seq<Request<V, S, P>>, e: Exec<V, S, P>)
    requires Exclusive(plan, e) && ListFits(plan, e) && Scanning(plan, e)
    ensures var e' := LookAt(plan, e);
      |e'.stage| == |plan| && ListFits(plan, e') && Measure(plan, e') < Measure(plan, e)
  {
    var e' := LookAt(plan, e);
    var t := e.todo[e.pc.pos];
    var w, w' := Work(e.stage, e.running, |plan|) + |e.todo|, Work(e'.stage, e'.running, |plan|) + |e'.todo|;
    if e.stage[t] == Terminal {
      MeasureFalls(|plan| + 3, w, w', PcRank(e), PcRank(e'));
    } else if Avail(e, plan[t], e.stage[t]) {
      DispatchExclusive(plan, e, t);
      WorkDrops(e.stage, e.running, e'.stage, e'.running, |plan|, t);
      MeasureFalls(|plan| + 3, w, w', PcRank(e), PcRank(e'));
    }
  }

  lemma StepFalls<V, S, P>(plan: seq<Request<V, S, P>>, e: Exec<V, S, P>, ev: Event)
    requires Exclusive(plan, e) && ListFits(plan, e) && Enabled(plan, e, ev)
    ensures var e' := Next(plan, e, ev);
      |e'.stage| == |plan| && ListFits(plan, e') && Measure(plan, e') < Measure(plan, e)
  {
    match ev
    case Finish(t, ok) => FinishFalls(plan, e, t, ok);
    case Look => LookFalls(plan, e);
    case _ =>
  }

  /** No run, disturbed or not, is longer than the measure of its first state. */
  lemma {:induction false} RunsAreFinite<V, S, P>(plan: seq<Request<V, S, P>>, n: int, e: Exec<V, S, P>,
                                                  evs: seq<Event>)
    requires Inv(plan, n, e) && ListFits(plan, e) && Run(plan, e, evs)
    ensures |evs| <= Measure(plan, e)
    decreases evs
  {
    if evs != [] {
      StepFalls(plan, e, evs[0]);
      StepKeepsInv(plan, n, e, evs[0]);
      RunsAreFinite(plan, n, Next(plan, e, evs[0]), evs[1..]);
    }
  }

  /** A run can always go on until the executor is done, and needs no disturbance for it. */
  lemma Progress<V, S, P>(plan: seq<Request<V, S, P>>, n: int, e: Exec<V, S, P>)
    requires Inv(plan, n, e)
    ensures e.pc.Done? || exists ev :: Enabled(plan, e, ev) && Calm(ev)
  {
    if e.pc.Scan? {
      assert Enabled(plan, e, Look) || Enabled(plan, e, EndScan);
      assert Calm(Look) && Calm(EndScan);
    } else if e.pc.Wait? {
      if e.running == {} {
        assert Enabled(plan, e, GiveUp) && Calm(GiveUp);
      } else {
        var t :| t in e.running;
        assert Enabled(plan, e, Finish(t, true)) && Calm(Finish(t, true));
      }
    }
  }

  // ----- undisturbed runs

  /** Steps of a run that is not interrupted and in which nothing fails. */
  predicate Calm(ev: Event) {
    match ev
    case Look => true
    case EndScan => true
    case Finish(t, ok) => ok
    case GiveUp => true
    case ForkFails => false
    case Interrupt => false
  }

  ghost predicate CalmRun(evs: seq<Event>) {
    forall i :: 0 <= i < |evs| ==> Calm(evs[i])
  }

  ghost predicate NoBackups<V, S, P>(plan: seq<Request<V, S, P>>) {
    forall t :: 0 <= t < |plan| ==> !plan[t].bkexist
  }

  /** Where an undisturbed run stands when no child is running: at the head of the list, or past an
      empty one. */
  ghost predicate Poised<V, S, P>(e: Exec<V, S, P>) {
    && !e.shutdown
    && (e.running == {} && e.pc.Scan? ==> e.pc.pos == 0)
    && (e.running == {} && !e.pc.Scan? ==> e.todo == [])
  }

  /** If the head of the list can always be dispatched when no child runs, the executor stays poised. */
  lemma StepKeepsPoised<V, S, P>(plan: seq<Request<V, S, P>>, n: int, e: Exec<V, S, P>, ev: Event)
    requires n != 0 && Inv(plan, n, e) && Poised(e) && Enabled(plan, e, ev) && Calm(ev)
    requires e.running == {} && ev == Look ==>
      var t := e.todo[e.pc.pos]; e.stage[t] == Terminal || Avail(e, plan[t], e.stage[t])
    ensures Poised(Next(plan, e, ev))
  {
    match ev
    case Look =>
      var t := e.todo[e.pc.pos];
      if e.stage[t] != Terminal && Avail(e, plan[t], e.stage[t]) {
        DispatchExclusive(plan, e, t);
        assert t in LookAt(plan, e).running;
      }
    case Finish(t, ok) => HoldsHeld(plan, e, t);
    case _ =>
  }

  // ----- one slot, or no backups

  /** A partition marked at the current lock number means that a child is running. */
  ghost predicate Live<V, S, P>(plan: seq<Request<V, S, P>>, n: int, e: Exec<V, S, P>) {
    && Poised(e)
    && (e.running == {} ==> forall p :: p in e.mark ==> e.mark[p] < e.lockid)
    && (n == 1 ==> e.mark == map[])
  }

  /** When no child runs, every unfinished transaction can be dispatched. */
  lemma IdleCanDispatch<V, S, P>(plan: seq<Request<V, S, P>>, n: int, e: Exec<V, S, P>, t: nat)
    requires Exclusive(plan, e) && MarksOk(e) && Live(plan, n, e)
    requires e.running == {} && t < |plan| && e.stage[t] != Terminal
    ensures Avail(e, plan[t], e.stage[t])
  {
    assert e.locked == {};
  }

  lemma LookKeepsMarks<V, S, P>(plan: seq<Request<V, S, P>>, n: int, e: Exec<V, S, P>)
    requires Inv(plan, n, e) && Live(plan, n, e) && Scanning(plan, e)
    ensures var e' := LookAt(plan, e);
      && (e'.running == {} ==> forall p :: p in e'.mark ==> e'.mark[p] < e'.lockid)
      && (n == 1 ==> e'.mark == map[])
  {
    var t := e.todo[e.pc.pos];
    assert n == 1 ==> |e.running| == 0;
    if e.stage[t] != Terminal {
      if e.running == {} {
        IdleCanDispatch(plan, n, e, t);
      }
      if Avail(e, plan[t], e.stage[t]) {
        DispatchExclusive(plan, e, t);
        assert t in LookAt(plan, e).running;
      }
    }
  }

  lemma StepKeepsLive<V, S, P>(plan: seq<Request<V, S, P>>, n: int, e: Exec<V, S, P>, ev: Event)
    requires n != 0 && (NoBackups(plan) || n == 1)
    requires Inv(plan, n, e) && Live(plan, n, e) && Enabled(plan, e, ev) && Calm(ev)
    ensures Live(plan, n, Next(plan, e, ev))
  {
    if e.running == {} && ev == Look && e.stage[e.todo[e.pc.pos]] != Terminal {
      IdleCanDispatch(plan, n, e, e.todo[e.pc.pos]);
    }
    StepKeepsPoised(plan, n, e, ev);
    match ev
    case Look => LookKeepsMarks(plan, n, e);
    case Finish(t, ok) =>
      HoldsHeld(plan, e, t);
      assert NoBackups(plan) ==> e.stage[t] == RwMove;
    case _ =>
  }

  lemma {:induction false} RunKeepsLive<V, S, P>(plan: seq<Request<V, S, P>>, n: int, e: Exec<V, S, P>, evs: seq<Event>)
    requires n != 0 && (NoBackups(plan) || n == 1)
    requires Inv(plan, n, e) && Live(plan, n, e) && Run(plan, e, evs) && CalmRun(evs)
    ensures Live(plan, n, After(plan, e, evs)) && Inv(plan, n, After(plan, e, evs))
    decreases evs
  {
    if evs != [] {
      assert Calm(evs[0]);
      StepKeepsLive(plan, n, e, evs[0]);
      StepKeepsInv(plan, n, e, evs[0]);
      RunKeepsLive(plan, n, Next(plan, e, evs[0]), evs[1..]);
    }
  }

  /** Every undisturbed run that cannot go on has emptied the list. */
  ghost predicate Drains<V, S, P>(plan: seq<Request<V, S, P>>, n: int, place: map<V, P>) {
    forall evs :: Run(plan, Start(plan, n, place), evs) && CalmRun(evs)
      && After(plan, Start(plan, n, place), evs).pc.Done?
      ==> After(plan, Start(plan, n, place), evs).todo == []
  }

  /** Without backups, or with one slot, an undisturbed run empties the list. */
  lemma SurelyDrains<V, S, P>(plan: seq<Request<V, S, P>>, n: int, place: map<V, P>)
    requires n != 0 && (NoBackups(plan) || n == 1)
    ensures Drains(plan, n, place)
  {
    var e := Start(plan, n, place);
    StartInv(plan, n, place);
    forall evs | Run(plan, e, evs) && CalmRun(evs) && After(plan, e, evs).pc.Done?
      ensures After(plan, e, evs).todo == []
    {
      RunKeepsLive(plan, n, e, evs);
    }
  }

  // ----- lists that fill no partition before it is emptied

  /** No volume is taken from a partition that an earlier move has filled, and none stays where it is. */
  ghost predicate EmptiedFirst<V, S, P>(plan: seq<Request<V, S, P>>) {
    && (forall t :: 0 <= t < |plan| ==> plan[t].pfrom != plan[t].pto)
    && (forall t, u :: 0 <= t < u < |plan| ==> plan[t].pto != plan[u].pfrom)
  }

  /** The transaction is still to move its volume away from `p`. */
  ghost predicate Empties<V, S, P>(plan: seq<Request<V, S, P>>, e: Exec<V, S, P>, t: nat, p: P) {
    t < |plan| && t < |e.stage| && t !in e.running && e.stage[t] == RwMove && plan[t].pfrom == p
  }

  /** Whatever is marked at the current lock number is still to be emptied by a transaction that is not
      running. */
  ghost predicate MarkedFirst<V, S, P>(plan: seq<Request<V, S, P>>, e: Exec<V, S, P>) {
    forall p :: p in e.mark && e.mark[p] >= e.lockid ==> exists t :: Empties(plan, e, t, p)
  }

  /** When no child runs, the head of the list can be dispatched: nothing before it is still to be
      emptied, and nothing it fills is emptied later. */
  lemma HeadCanDispatch<V, S, P>(plan: seq<Request<V, S, P>>, e: Exec<V, S, P>)
    requires EmptiedFirst(plan) && Exclusive(plan, e) && ListOk(plan, e) && MarksOk(e) && MarkedFirst(plan, e)
    requires e.running == {} && e.todo != [] && e.stage[e.todo[0]] != Terminal
    ensures Avail(e, plan[e.todo[0]], e.stage[e.todo[0]])
  {
    assert e.locked == {};
    var s := e.todo[0];
    assert e.stage[s] == RwMove ==> forall t: nat :: !Empties(plan, e, t, plan[s].pto);
  }

  /** A refused transaction is not running, and a move that starts or ends advances the lock number. */
  lemma StepKeepsMarked<V, S, P>(plan: seq<Request<V, S, P>>, n: int, e: Exec<V, S, P>, ev: Event)
    requires Inv(plan, n, e) && MarkedFirst(plan, e) && Enabled(plan, e, ev)
    ensures MarkedFirst(plan, Next(plan, e, ev))
  {
    match ev
    case Look => LookKeepsMarked(plan, n, e);
    case Finish(t, ok) =>
      HoldsHeld(plan, e, t);
      SameMarked(plan, e, Next(plan, e, ev));
    case _ => SameMarked(plan, e, Next(plan, e, ev));
  }

  lemma FreeNotRunning<V, S, P>(plan: seq<Request<V, S, P>>, e: Exec<V, S, P>, t: nat)
    requires Exclusive(plan, e) && t < |plan| == |e.stage| && e.stage[t] == RwMove && plan[t].sfrom !in e.locked
    ensures t !in e.running
  {
    assert plan[t].sfrom in Holds(plan[t], e.stage[t]);
  }

  /** Marks are kept by transactions that stay where they are. */
  lemma SameMarked<V, S, P>(plan: seq<Request<V, S, P>>, e: Exec<V, S, P>, e': Exec<V, S, P>)
    requires MarkedFirst(plan, e) && e'.mark == e.mark && e'.lockid >= e.lockid
    requires forall u, p :: Empties(plan, e, u, p) ==> Empties(plan, e', u, p)
    ensures MarkedFirst(plan, e')
  {
    forall p | p in e'.mark && e'.mark[p] >= e'.lockid ensures exists u :: Empties(plan, e', u, p) {
      var u :| Empties(plan, e, u, p);
      assert Empties(plan, e', u, p);
    }
  }

  lemma DispatchKeepsMarked<V, S, P>(plan: seq<Request<V, S, P>>, e: Exec<V, S, P>, t: nat)
    requires MarksOk(e) && MarkedFirst(plan, e) && t < |plan| == |e.stage| && e.stage[t] != Terminal
    requires Avail(e, plan[t], e.stage[t])
    ensures MarkedFirst(plan, Dispatch(e, plan[t], e.stage[t], t))
  {
    if e.stage[t] == RwBackup {
      SameMarked(plan, e, Dispatch(e, plan[t], e.stage[t], t));
    }
  }

  lemma RefuseKeepsMarked<V, S, P>(plan: seq<Request<V, S, P>>, e: Exec<V, S, P>, t: nat, pc: Pc)
    requires MarkedFirst(plan, e) && t < |plan| == |e.stage|
    requires e.stage[t] == RwMove && plan[t].sfrom !in e.locked ==> t !in e.running
    ensures MarkedFirst(plan, Refuse(e, plan[t], e.stage[t]).(pc := pc))
  {
    var e' := Refuse(e, plan[t], e.stage[t]).(pc := pc);
    forall p | p in e'.mark && e'.mark[p] >= e'.lockid ensures exists u :: Empties(plan, e', u, p) {
      if p in e.mark && e.mark[p] >= e.lockid {
        var u :| Empties(plan, e, u, p);
        assert Empties(plan, e', u, p);
      } else {
        assert Empties(plan, e', t, p);
      }
    }
  }

  lemma LookKeepsMarked<V, S, P>(plan: seq<Request<V, S, P>>, n: int, e: Exec<V, S, P>)
    requires Inv(plan, n, e) && MarkedFirst(plan, e) && Scanning(plan, e)
    ensures MarkedFirst(plan, LookAt(plan, e))
  {
    hide MarkedFirst, Exclusive, ListOk, LogOk, MarksOk, Refuse, Dispatch, Avail;
    var t := e.todo[e.pc.pos];
    if e.stage[t] == RwMove && plan[t].sfrom !in e.locked {
      FreeNotRunning(plan, e, t);
    }
    if e.stage[t] == Terminal {
      SnipKeepsMarked(plan, e, LookAt(plan, e));
    } else if Avail(e, plan[t], e.stage[t]) {
      DispatchKeepsMarked(plan, e, t);
    } else {
      RefuseKeepsMarked(plan, e, t, Scan(e.pc.pos + 1));
    }
  }

  lemma SnipKeepsMarked<V, S, P>(plan: seq<Request<V, S, P>>, e: Exec<V, S, P>, e': Exec<V, S, P>)
    requires MarkedFirst(plan, e) && e' == e.(todo := e'.todo)
    ensures MarkedFirst(plan, e')
  {
    SameMarked(plan, e, e');
  }

  lemma {:induction false} RunKeepsMarked<V, S, P>(plan: seq<Request<V, S, P>>, n: int, e: Exec<V, S, P>,
                                                   evs: seq<Event>)
    requires n != 0 && EmptiedFirst(plan)
    requires Inv(plan, n, e) && Poised(e) && MarkedFirst(plan, e) && Run(plan, e, evs) && CalmRun(evs)
    ensures Poised(After(plan, e, evs)) && Inv(plan, n, After(plan, e, evs))
    decreases evs
  {
    if evs != [] {
      assert Calm(evs[0]);
      if e.running == {} && evs[0] == Look && e.stage[e.todo[e.pc.pos]] != Terminal {
        HeadCanDispatch(plan, e);
      }
      StepKeepsPoised(plan, n, e, evs[0]);
      StepKeepsMarked(plan, n, e, evs[0]);
      StepKeepsInv(plan, n, e, evs[0]);
      RunKeepsMarked(plan, n, Next(plan, e, evs[0]), evs[1..]);
    }
  }

  /** Whatever backups there are and however many slots, an undisturbed run empties a list that fills no
      partition before it is emptied. */
  lemma EmptiedFirstDrains<V, S, P>(plan: seq<Request<V, S, P>>, n: int, place: map<V, P>)
    requires n != 0 && EmptiedFirst(plan)
    ensures Drains(plan, n, place)
  {
    var e := Start(plan, n, place);
    StartInv(plan, n, place);
    forall evs | Run(plan, e, evs) && CalmRun(evs) && After(plan, e, evs).pc.Done?
      ensures After(plan, e, evs).todo == []
    {
      RunKeepsMarked(plan, n, e, evs);
    }
  }
}
