/** What a run does to the volumes, compared with the serial plan. */
module Outcome {
  import opened Transactions
  import opened Schedule

  /** The placement the planner computed: the moves of the plan, one after the other. */
  function SerialPlace<V(==), S, P>(plan: seq<Request<V, S, P>>, place: map<V, P>): map<V, P> {
    if plan == [] then place
    else SerialPlace(plan[..|plan| - 1], place)[plan[|plan| - 1].vol := plan[|plan| - 1].pto]
  }

  /** A serial plan: every move starts from where the moves before it left the volume. */
  ghost predicate Consistent<V, S, P>(plan: seq<Request<V, S, P>>, place: map<V, P>) {
    forall t :: 0 <= t < |plan| ==>
      && plan[t].vol in SerialPlace(plan[..t], place)
      && SerialPlace(plan[..t], place)[plan[t].vol] == plan[t].pfrom
  }

  ghost predicate OncePerVolume<V, S, P>(plan: seq<Request<V, S, P>>) {
    forall t, u :: 0 <= t < u < |plan| ==> plan[t].vol != plan[u].vol
  }

  ghost predicate Untouched<V, S, P>(plan: seq<Request<V, S, P>>, v: V) {
    forall t :: 0 <= t < |plan| ==> plan[t].vol != v
  }

  /** The moves of the plan whose transactions are past their first stage, in plan order. */
  ghost function Finished<V, S, P>(plan: seq<Request<V, S, P>>, stage: seq<Stage>): seq<Request<V, S, P>>
    requires |stage| == |plan|
  {
    if plan == [] then []
    else
      var k := |plan| - 1;
      Finished(plan[..k], stage[..k]) + if stage[k] != RwMove then [plan[k]] else []
  }

  /** Every transaction that has not moved its volume yet finds it on its source partition. */
  ghost predicate Waiting<V, S, P>(plan: seq<Request<V, S, P>>, e: Exec<V, S, P>) {
    && |e.stage| == |plan|
    && forall t :: 0 <= t < |plan| && e.stage[t] == RwMove ==>
         plan[t].vol in e.place && e.place[plan[t].vol] == plan[t].pfrom
  }

  predicate AllOk(evs: seq<Event>) {
    forall i :: 0 <= i < |evs| && evs[i].Finish? ==> evs[i].ok
  }

  lemma AllOkNone()
    ensures AllOk([])
  {
  }

  lemma AllOkOneMore(evs: seq<Event>, ev: Event)
    ensures AllOk(evs + [ev]) <==> AllOk(evs) && (ev.Finish? ==> ev.ok)
  {
    assert (evs + [ev])[|evs|] == ev;
    assert forall i :: 0 <= i < |evs| ==> (evs + [ev])[i] == evs[i];
  }

  lemma {:induction false} SerialUntouched<V, S, P>(plan: seq<Request<V, S, P>>, place: map<V, P>, v: V)
    requires Untouched(plan, v)
    ensures v in SerialPlace(plan, place) <==> v in place
    ensures v in place ==> SerialPlace(plan, place)[v] == place[v]
  {
    if plan != [] {
      var k := |plan| - 1;
      assert plan[k].vol != v;
      assert forall t :: 0 <= t < k ==> plan[..k][t] == plan[t];
      SerialUntouched(plan[..k], place, v);
    }
  }

  lemma {:induction false} SerialMoved<V, S, P>(plan: seq<Request<V, S, P>>, place: map<V, P>, t: nat)
    requires OncePerVolume(plan) && t < |plan|
    ensures plan[t].vol in SerialPlace(plan, place)
    ensures SerialPlace(plan, place)[plan[t].vol] == plan[t].pto
  {
    var k := |plan| - 1;
    if t < k {
      assert plan[..k][t] == plan[t];
      SerialMoved(plan[..k], place, t);
      assert plan[t].vol != plan[k].vol;
    }
  }

  lemma StartWaiting<V, S, P>(plan: seq<Request<V, S, P>>, n: int, place: map<V, P>)
    requires OncePerVolume(plan) && Consistent(plan, place)
    ensures Waiting(plan, Start(plan, n, place))
  {
    forall t | 0 <= t < |plan| ensures plan[t].vol in place && place[plan[t].vol] == plan[t].pfrom {
      assert forall u :: 0 <= u < t ==> plan[..t][u] == plan[u];
      SerialUntouched(plan[..t], place, plan[t].vol);
    }
  }

  lemma FinishKeepsWaiting<V, S, P>(plan: seq<Request<V, S, P>>, e: Exec<V, S, P>, e': Exec<V, S, P>, t: nat,
                                    next: Stage)
    requires OncePerVolume(plan) && Waiting(plan, e) && t < |plan|
    requires next != RwMove && e'.stage == e.stage[t := next]
    requires e'.place == e.place || e'.place == e.place[plan[t].vol := plan[t].pto]
    ensures Waiting(plan, e')
  {
    forall u | 0 <= u < |plan| && e'.stage[u] == RwMove
      ensures plan[u].vol in e'.place && e'.place[plan[u].vol] == plan[u].pfrom
    {
      assert u != t && plan[u].vol != plan[t].vol;
    }
  }

  lemma StepKeepsWaiting<V, S, P>(plan: seq<Request<V, S, P>>, n: int, e: Exec<V, S, P>, ev: Event)
    requires OncePerVolume(plan) && Waiting(plan, e) && Inv(plan, n, e) && Enabled(plan, e, ev)
    ensures Waiting(plan, Next(plan, e, ev))
  {
    StepEffect(plan, e, ev);
    if ev.Finish? {
      FinishKeepsWaiting(plan, e, Next(plan, e, ev), ev.tx, Transition(e.stage[ev.tx], plan[ev.tx].bkexist));
    }
  }

  /** With one move per volume, in every run (failing commands included) a move that is issued
      names the partition its volume is really on. */
  lemma {:induction false} IssuedMovesAreReal<V, S, P>(plan: seq<Request<V, S, P>>, n: int, e: Exec<V, S, P>,
                                                       evs: seq<Event>)
    requires OncePerVolume(plan) && Waiting(plan, e) && Inv(plan, n, e) && Run(plan, e, evs)
    ensures Waiting(plan, After(plan, e, evs))
    decreases evs
  {
    if evs != [] {
      StepKeepsWaiting(plan, n, e, evs[0]);
      StepKeepsInv(plan, n, e, evs[0]);
      IssuedMovesAreReal(plan, n, Next(plan, e, evs[0]), evs[1..]);
    }
  }

  // ----- the placement at every point of a run

  /** Finishing a move, wherever it stands in the plan, adds just its own effect: moves of
      different volumes commute. */
  lemma {:induction false} FinishOne<V, S, P>(plan: seq<Request<V, S, P>>, stage: seq<Stage>, t: nat, next: Stage,
                                              place: map<V, P>)
    requires |stage| == |plan| && t < |plan| && OncePerVolume(plan)
    requires stage[t] == RwMove && next != RwMove
    ensures SerialPlace(Finished(plan, stage[t := next]), place)
         == SerialPlace(Finished(plan, stage), place)[plan[t].vol := plan[t].pto]
  {
    hide Finished, SerialPlace;
    var k := |plan| - 1;
    SerialLast(plan, stage, place);
    SerialLast(plan, stage[t := next], place);
    if t == k {
      assert stage[t := next][..k] == stage[..k];
    } else {
      assert stage[t := next][..k] == stage[..k][t := next];
      assert plan[..k][t] == plan[t] && plan[t].vol != plan[k].vol;
      FinishOne(plan[..k], stage[..k], t, next, place);
    }
  }

  lemma SerialLast<V, S, P>(plan: seq<Request<V, S, P>>, stage: seq<Stage>, place: map<V, P>)
    requires |stage| == |plan| > 0
    ensures var k := |plan| - 1;
      var p := SerialPlace(Finished(plan[..k], stage[..k]), place);
      SerialPlace(Finished(plan, stage), place) == if stage[k] != RwMove then p[plan[k].vol := plan[k].pto] else p
  {
    var k := |plan| - 1;
    var f := Finished(plan[..k], stage[..k]);
    assert (f + [plan[k]])[..|f|] == f;
    assert f + [] == f;
  }

  lemma FinishedLast<V, S, P>(plan: seq<Request<V, S, P>>, stage: seq<Stage>)
    requires |stage| == |plan| > 0
    ensures var k := |plan| - 1;
      Finished(plan, stage) == Finished(plan[..k], stage[..k]) + if stage[k] != RwMove then [plan[k]] else []
  {
  }

  /** Passing from the backup stage on changes nothing. */
  lemma {:induction false} FinishBackup<V, S, P>(plan: seq<Request<V, S, P>>, stage: seq<Stage>, t: nat, next: Stage)
    requires |stage| == |plan| && t < |plan| && stage[t] != RwMove && next != RwMove
    ensures Finished(plan, stage[t := next]) == Finished(plan, stage)
  {
    var k := |plan| - 1;
    FinishedLast(plan, stage);
    FinishedLast(plan, stage[t := next]);
    hide Finished;
    if t == k {
      assert stage[t := next][..k] == stage[..k];
    } else {
      assert stage[t := next][..k] == stage[..k][t := next];
      FinishBackup(plan[..k], stage[..k], t, next);
    }
  }

  /** Nothing has moved, or everything has. */
  lemma {:induction false} FinishedExtremes<V, S, P>(plan: seq<Request<V, S, P>>, stage: seq<Stage>)
    requires |stage| == |plan|
    ensures (forall t :: 0 <= t < |plan| ==> stage[t] == RwMove) ==> Finished(plan, stage) == []
    ensures (forall t :: 0 <= t < |plan| ==> stage[t] != RwMove) ==> Finished(plan, stage) == plan
  {
    if plan != [] {
      var k := |plan| - 1;
      FinishedLast(plan, stage);
      hide Finished;
      FinishedExtremes(plan[..k], stage[..k]);
      assert plan[..k] + [plan[k]] == plan;
      assert forall t :: 0 <= t < k ==> stage[..k][t] == stage[t];
    }
  }

  /** At every point of a run without failures, the volumes are where the planner's serial
      computation puts them for the moves completed so far. */
  lemma {:induction false} PlaceIsSerial<V, S, P>(plan: seq<Request<V, S, P>>, n: int, place0: map<V, P>, e: Exec<V, S,
                                                  P>, evs: seq<Event>)
    requires OncePerVolume(plan) && Inv(plan, n, e)
    requires e.place == SerialPlace(Finished(plan, e.stage), place0)
    requires Run(plan, e, evs) && AllOk(evs)
    ensures var e' := After(plan, e, evs);
      |e'.stage| == |plan| && e'.place == SerialPlace(Finished(plan, e'.stage), place0)
    decreases evs
  {
    if evs != [] {
      StepKeepsInv(plan, n, e, evs[0]);
      StepKeepsPlace(plan, n, place0, e, evs[0]);
      PlaceIsSerial(plan, n, place0, Next(plan, e, evs[0]), evs[1..]);
    }
  }

  lemma StepKeepsPlace<V, S, P>(plan: seq<Request<V, S, P>>, n: int, place0: map<V, P>, e: Exec<V, S, P>, ev: Event)
    requires OncePerVolume(plan) && Inv(plan, n, e)
    requires e.place == SerialPlace(Finished(plan, e.stage), place0)
    requires Enabled(plan, e, ev) && (ev.Finish? ==> ev.ok)
    ensures var e' := Next(plan, e, ev);
      |e'.stage| == |plan| && e'.place == SerialPlace(Finished(plan, e'.stage), place0)
  {
    StepEffect(plan, e, ev);
    if ev.Finish? {
      var t := ev.tx;
      var next := Transition(e.stage[t], plan[t].bkexist);
      if e.stage[t] == RwMove {
        FinishOne(plan, e.stage, t, next, place0);
      } else {
        FinishBackup(plan, e.stage, t, next);
      }
    }
  }

  /** Every run that empties the list without a failure ends, whatever the order of completions,
      in exactly the placement of the serial plan. */
  lemma DrainedRunIsSerial<V, S, P>(plan: seq<Request<V, S, P>>, n: int, place: map<V, P>, evs: seq<Event>)
    requires OncePerVolume(plan)
    requires Run(plan, Start(plan, n, place), evs) && AllOk(evs)
    requires After(plan, Start(plan, n, place), evs).todo == []
    ensures After(plan, Start(plan, n, place), evs).place == SerialPlace(plan, place)
  {
    hide *;
    var e, e' := Start(plan, n, place), After(plan, Start(plan, n, place), evs);
    StartInv(plan, n, place);
    Safety(plan, n, e, evs);
    NothingFinished(plan, n, place);
    AllFinished(plan, n, e');
    PlaceIsSerial(plan, n, place, e, evs);
  }

  lemma NothingFinished<V, S, P>(plan: seq<Request<V, S, P>>, n: int, place: map<V, P>)
    ensures var e := Start(plan, n, place);
      |e.stage| == |plan| && e.place == place == SerialPlace(Finished(plan, e.stage), place)
  {
    FinishedExtremes(plan, Start(plan, n, place).stage);
    hide Finished;
  }

  lemma AllFinished<V, S, P>(plan: seq<Request<V, S, P>>, n: int, e: Exec<V, S, P>)
    requires Inv(plan, n, e) && e.todo == []
    ensures |e.stage| == |plan| && Finished(plan, e.stage) == plan
  {
    FinishedExtremes(plan, e.stage);
    hide Finished, LogOk, Exclusive;
  }
}
