/** What the marks on partitions achieve: exactly which turns of the scan issue something, told by what the
    run has done so far, without locks, marks and lock numbers. */
module Marks {
  import opened Transactions
  import opened Schedule

  /** A running child has to do with the server: it moves a volume away from it, or moves one to it or backs one
      up on it. */
  ghost predicate Busy<V(!new), S, P(!new)>(plan: seq<Request<V, S, P>>, e: Exec<V, S, P>, s: S) {
    exists t :: t in e.running && t < |plan| && t < |e.stage|
      && (s == plan[t].sto || (e.stage[t] == RwMove && s == plan[t].sfrom))
  }

  /** A turn of the scan at a transaction whose volume is still to be moved. */
  ghost predicate AtMove<V, S, P>(plan: seq<Request<V, S, P>>, e: Exec<V, S, P>, ev: Event) {
    ev == Look && Scanning(plan, e) && e.stage[e.todo[e.pc.pos]] == RwMove
  }

  /** The scan passes a move away from the partition: the source server is free, the destination's is not. */
  ghost predicate PassesBy<V(!new), S, P(!new)>(plan: seq<Request<V, S, P>>, e: Exec<V, S, P>, ev: Event, p: P) {
    AtMove(plan, e, ev)
    && var r := plan[e.todo[e.pc.pos]];
    r.pfrom == p && !Busy(plan, e, r.sfrom) && Busy(plan, e, r.sto)
  }

  /** A move is issued, or the child of one is collected. */
  ghost predicate Stirs<V, S, P>(plan: seq<Request<V, S, P>>, e: Exec<V, S, P>, ev: Event)
    requires Enabled(plan, e, ev)
  {
    match ev
    case Finish(t, _) => e.stage[t] == RwMove
    case Look => AtMove(plan, e, ev) && Next(plan, e, ev).log != e.log
    case _ => false
  }

  lemma {:induction false} RunInit<V, S, P>(plan: seq<Request<V, S, P>>, e: Exec<V, S, P>, evs: seq<Event>)
    requires evs != [] && Run(plan, e, evs)
    ensures var before := evs[..|evs| - 1];
      && Run(plan, e, before) && Enabled(plan, After(plan, e, before), evs[|evs| - 1])
      && After(plan, e, evs) == Next(plan, After(plan, e, before), evs[|evs| - 1])
    decreases evs
  {
    hide Enabled, Next;
    if |evs| == 1 {
      assert evs[1..] == [];
    } else {
      RunInit(plan, Next(plan, e, evs[0]), evs[1..]);
      assert evs[1..][..|evs| - 2] == evs[..|evs| - 1][1..];
    }
  }

  /** Since a move was last issued or collected, the scan has passed a move away from the partition. */
  ghost predicate Pending<V(!new), S, P(!new)>(plan: seq<Request<V, S, P>>, e0: Exec<V, S, P>, evs: seq<Event>, p: P)
    requires Run(plan, e0, evs)
    decreases |evs|
  {
    evs != []
    && var (before, ev) := (evs[..|evs| - 1], evs[|evs| - 1]);
    RunInit(plan, e0, evs);
    var e := After(plan, e0, before);
    PassesBy(plan, e, ev, p) || (Pending(plan, e0, before, p) && !Stirs(plan, e, ev))
  }

  /** Something can be issued for the transaction at the position of the scan. */
  ghost predicate Ready<V(!new), S, P(!new)>(plan: seq<Request<V, S, P>>, e0: Exec<V, S, P>, evs: seq<Event>)
    requires Run(plan, e0, evs) && Scanning(plan, After(plan, e0, evs))
  {
    var e := After(plan, e0, evs);
    var t := e.todo[e.pc.pos];
    var r := plan[t];
    match e.stage[t]
    case RwMove => !Busy(plan, e, r.sfrom) && !Busy(plan, e, r.sto) && !Pending(plan, e0, evs, r.pto)
    case RwBackup => !Busy(plan, e, r.sto)
    case Terminal => false
  }

  // ----- locks and marks

  lemma BusyIsLocked<V(!new), S, P(!new)>(plan: seq<Request<V, S, P>>, e: Exec<V, S, P>, s: S)
    requires Exclusive(plan, e)
    ensures s in e.locked <==> Busy(plan, e, s)
  {
    if s in e.locked {
      var t :| t in e.running && t < |plan| && t < |e.stage| && s in Holds(plan[t], e.stage[t]);
    }
    if Busy(plan, e, s) {
      var t :| t in e.running && t < |plan| && t < |e.stage|
        && (s == plan[t].sto || (e.stage[t] == RwMove && s == plan[t].sfrom));
      assert s in Holds(plan[t], e.stage[t]);
    }
  }

  /** What a turn of the scan does to the lock number and the marks. */
  lemma LookMarks<V, S, P>(plan: seq<Request<V, S, P>>, e: Exec<V, S, P>, p: P)
    requires Scanning(plan, e) && MarksOk(e)
    ensures var (t, e') := (e.todo[e.pc.pos], Next(plan, e, Look));
      var (r, move, free) := (plan[t], e.stage[t] == RwMove, Avail(e, plan[t], e.stage[t]));
      && e'.lockid == e.lockid + (if move && free then 1 else 0)
      && (e'.log != e.log <==> free)
      && Mark(e', p) == if move && r.pfrom == p && r.sfrom !in e.locked && r.sto in e.locked then e.lockid
                        else Mark(e, p)
  {
  }

  /** What the collection of a child does to them. */
  lemma FinishMarks<V, S, P>(plan: seq<Request<V, S, P>>, e: Exec<V, S, P>, t: nat, ok: bool, p: P)
    requires Enabled(plan, e, Finish(t, ok)) && Held(e, plan[t], e.stage[t])
    ensures var e' := Next(plan, e, Finish(t, ok));
      e'.lockid == e.lockid + (if e.stage[t] == RwMove then 1 else 0) && Mark(e', p) == Mark(e, p)
  {
  }

  /** A mark is of the present lock number after a step if the step has made it so, or it was and the number
      has not changed. */
  lemma MarkStep<V(!new), S, P(!new)>(plan: seq<Request<V, S, P>>, n: int, e: Exec<V, S, P>, ev: Event, p: P)
    requires Inv(plan, n, e) && Enabled(plan, e, ev)
    ensures var e' := Next(plan, e, ev);
      Mark(e', p) == e'.lockid <==> PassesBy(plan, e, ev, p) || (Mark(e, p) == e.lockid && !Stirs(plan, e, ev))
  {
    MarkBound(plan, n, e, p);
    if ev == Look {
      var r := plan[e.todo[e.pc.pos]];
      BusyIsLocked(plan, e, r.sfrom);
      BusyIsLocked(plan, e, r.sto);
      LookMarks(plan, e, p);
      hide Inv, Next, Mark, MarksOk, Busy;
    } else if ev.Finish? {
      HoldsHeld(plan, e, ev.tx);
      FinishMarks(plan, e, ev.tx, ev.ok, p);
      hide Inv, Next, Mark, MarksOk, Busy;
    } else {
      hide Inv, MarksOk, Busy;
    }
  }

  lemma MarkBound<V, S, P>(plan: seq<Request<V, S, P>>, n: int, e: Exec<V, S, P>, p: P)
    requires Inv(plan, n, e)
    ensures MarksOk(e) && Exclusive(plan, e) && Mark(e, p) <= e.lockid
  {
    hide LogOk, ListOk, Exclusive;
  }

  lemma {:induction false} MarkedExactly<V(!new), S, P(!new)>(plan: seq<Request<V, S, P>>, n: int, place: map<V, P>,
                                                              evs: seq<Event>, p: P)
    requires Run(plan, Start(plan, n, place), evs)
    ensures var e := After(plan, Start(plan, n, place), evs);
      Mark(e, p) == e.lockid <==> Pending(plan, Start(plan, n, place), evs, p)
    decreases |evs|
  {
    var e0 := Start(plan, n, place);
    if evs != [] {
      var before := evs[..|evs| - 1];
      RunInit(plan, e0, evs);
      MarkedExactly(plan, n, place, before, p);
      StartInv(plan, n, place);
      Safety(plan, n, e0, before);
      MarkStep(plan, n, After(plan, e0, before), evs[|evs| - 1], p);
      hide Run, Next, Inv, PassesBy, Stirs, Enabled;
    }
  }

  lemma LookIssues<V(!new), S, P(!new)>(plan: seq<Request<V, S, P>>, n: int, e: Exec<V, S, P>)
    requires Inv(plan, n, e) && Scanning(plan, e)
    ensures var t := e.todo[e.pc.pos];
      var r := plan[t];
      && (e.stage[t] == RwMove ==>
           Next(plan, e, Look).log == e.log
             + if !Busy(plan, e, r.sfrom) && !Busy(plan, e, r.sto) && Mark(e, r.pto) != e.lockid
               then [Issue(t, Move(r.vol, r.sfrom, r.pfrom, r.sto, r.pto))] else [])
      && (e.stage[t] == RwBackup ==>
           Next(plan, e, Look).log == e.log + if !Busy(plan, e, r.sto) then [Issue(t, Backup(r.vol))] else [])
      && (e.stage[t] == Terminal ==> Next(plan, e, Look).log == e.log)
  {
    var r := plan[e.todo[e.pc.pos]];
    BusyIsLocked(plan, e, r.sfrom);
    BusyIsLocked(plan, e, r.sto);
    hide Busy, LogOk, ListOk, Exclusive;
  }

  /** In every run, a turn of the scan issues the next command of its transaction exactly if no running child has
      to do with the servers it needs, and, for a move, no move away from its destination partition has been
      passed since a move was last issued or collected. */
  lemma IssuesExactly<V(!new), S, P(!new)>(plan: seq<Request<V, S, P>>, n: int, place: map<V, P>, evs: seq<Event>)
    requires Run(plan, Start(plan, n, place), evs)
    requires Scanning(plan, After(plan, Start(plan, n, place), evs))
    ensures var e0 := Start(plan, n, place);
      var e := After(plan, e0, evs);
      var t := e.todo[e.pc.pos];
      var r := plan[t];
      Next(plan, e, Look).log == e.log
        + (if !Ready(plan, e0, evs) then []
           else [Issue(t, if e.stage[t] == RwMove then Move(r.vol, r.sfrom, r.pfrom, r.sto, r.pto) else Backup(r.vol))])
  {
    var e0 := Start(plan, n, place);
    var e := After(plan, e0, evs);
    StartInv(plan, n, place);
    Safety(plan, n, e0, evs);
    LookIssues(plan, n, e);
    MarkedExactly(plan, n, place, evs, plan[e.todo[e.pc.pos]].pto);
    hide Run, Next, Inv, Pending, Busy, Mark, After;
  }

  // ----- a refused move goes first

  lemma MarkLater<V, S, P>(plan: seq<Request<V, S, P>>, n: int, e: Exec<V, S, P>, ev: Event, p: P)
    requires Inv(plan, n, e) && Enabled(plan, e, ev)
    ensures var e' := Next(plan, e, ev); e'.lockid >= e.lockid && Mark(e', p) >= Mark(e, p)
  {
    MarkBound(plan, n, e, p);
    if ev == Look {
      LookMarks(plan, e, p);
      hide Inv, Next, Mark, MarksOk, Avail, Exclusive;
    } else if ev.Finish? {
      HoldsHeld(plan, e, ev.tx);
      FinishMarks(plan, e, ev.tx, ev.ok, p);
      hide Inv, Next, Mark, MarksOk, Exclusive;
    } else {
      hide Inv, MarksOk;
    }
  }

  lemma {:induction false} MarkStays<V, S, P>(plan: seq<Request<V, S, P>>, n: int, e: Exec<V, S, P>, evs: seq<Event>,
                                              p: P)
    requires Inv(plan, n, e) && Run(plan, e, evs)
    ensures var e' := After(plan, e, evs); e'.lockid >= e.lockid && Mark(e', p) >= Mark(e, p)
    decreases evs
  {
    hide Inv, Mark, Enabled, Next;
    if evs != [] {
      MarkLater(plan, n, e, evs[0], p);
      StepKeepsInv(plan, n, e, evs[0]);
      MarkStays(plan, n, Next(plan, e, evs[0]), evs[1..], p);
    }
  }

  /** When the scan has passed a move whose source server is free and whose destination server is not, then,
      however the run goes on, no move to the partition that it leaves is available, and none is issued, as long
      as the lock number is the same. */
  lemma RefusedMovesGoFirst<V(!new), S, P(!new)>(plan: seq<Request<V, S, P>>, n: int, e: Exec<V, S, P>,
                                                 evs: seq<Event>)
    requires Inv(plan, n, e) && Scanning(plan, e) && e.stage[e.todo[e.pc.pos]] == RwMove
    requires plan[e.todo[e.pc.pos]].sfrom !in e.locked && plan[e.todo[e.pc.pos]].sto in e.locked
    requires Run(plan, Next(plan, e, Look), evs)
    requires After(plan, Next(plan, e, Look), evs).lockid == e.lockid
    ensures var (p, e') := (plan[e.todo[e.pc.pos]].pfrom, After(plan, Next(plan, e, Look), evs));
      && (forall u :: 0 <= u < |plan| && plan[u].pto == p ==> !Avail(e', plan[u], RwMove))
      && (AtMove(plan, e', Look) && plan[e'.todo[e'.pc.pos]].pto == p ==> Next(plan, e', Look).log == e'.log)
  {
    var (p, e1) := (plan[e.todo[e.pc.pos]].pfrom, Next(plan, e, Look));
    RefusalMarks(plan, n, e);
    StepKeepsInv(plan, n, e, Look);
    MarkStays(plan, n, e1, evs, p);
    Safety(plan, n, e1, evs);
    var e' := After(plan, e1, evs);
    MarkBound(plan, n, e', p);
    assert Mark(e', p) == e'.lockid;
    hide Run, Next, Inv, Busy, After, Mark, Exclusive, MarksOk;
    if AtMove(plan, e', Look) {
      LookMarks(plan, e', p);
    }
  }

  lemma RefusalMarks<V, S, P>(plan: seq<Request<V, S, P>>, n: int, e: Exec<V, S, P>)
    requires Inv(plan, n, e) && Scanning(plan, e) && e.stage[e.todo[e.pc.pos]] == RwMove
    requires plan[e.todo[e.pc.pos]].sfrom !in e.locked && plan[e.todo[e.pc.pos]].sto in e.locked
    ensures var (p, e') := (plan[e.todo[e.pc.pos]].pfrom, Next(plan, e, Look));
      Mark(e', p) == e'.lockid == e.lockid
  {
    MarkBound(plan, n, e, plan[e.todo[e.pc.pos]].pfrom);
    LookMarks(plan, e, plan[e.todo[e.pc.pos]].pfrom);
    hide Next, Inv, Mark, MarksOk, Exclusive;
  }
}
