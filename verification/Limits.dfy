/** The exact limits of what the executor guarantees: for which numbers of moves per volume the
    serial order is kept, and for which numbers of slots every list is emptied. */
module Limits {
  import opened Transactions
  import opened Schedule
  import opened Outcome
  import opened Drain

  type Job = Request<nat, nat, nat>
  type Machine = Exec<nat, nat, nat>

  // ----- building runs

  ghost predicate Reaches(plan: seq<Job>, e: Machine, e': Machine) {
    exists evs :: Run(plan, e, evs) && CalmRun(evs) && After(plan, e, evs) == e'
  }

  lemma ReachSelf(plan: seq<Job>, e: Machine)
    ensures Reaches(plan, e, e)
  {
    assert Run(plan, e, []) && CalmRun([]) && After(plan, e, []) == e;
  }

  lemma ReachNext(plan: seq<Job>, e0: Machine, e: Machine, ev: Event)
    requires Reaches(plan, e0, e) && Enabled(plan, e, ev) && Calm(ev)
    ensures Reaches(plan, e0, Next(plan, e, ev))
  {
    var evs :| Run(plan, e0, evs) && CalmRun(evs) && After(plan, e0, evs) == e;
    RunExtend(plan, e0, evs, ev);
    assert CalmRun(evs + [ev]);
  }

  /** A transaction the dispatch loop passes by without any effect. */
  predicate PassedBy(plan: seq<Job>, e: Machine, t: nat) {
    && Known(plan, e, t) && e.stage[t] != Terminal
    && !Avail(e, plan[t], e.stage[t]) && Refuse(e, plan[t], e.stage[t]) == e
  }

  lemma {:induction false} ScanRest(plan: seq<Job>, e0: Machine, e: Machine)
    requires Reaches(plan, e0, e) && e.pc.Scan? && e.pc.pos <= |e.todo| && !e.shutdown
    requires forall i :: e.pc.pos <= i < |e.todo| ==> PassedBy(plan, e, e.todo[i])
    ensures Reaches(plan, e0, e.(pc := Wait))
    decreases |e.todo| - e.pc.pos
  {
    if e.pc.pos == |e.todo| || e.nprocs == 0 {
      ReachNext(plan, e0, e, EndScan);
    } else {
      assert PassedBy(plan, e, e.todo[e.pc.pos]);
      ReachNext(plan, e0, e, Look);
      var e' := e.(pc := Scan(e.pc.pos + 1));
      assert Next(plan, e, Look) == e';
      forall i | e'.pc.pos <= i < |e'.todo| ensures PassedBy(plan, e', e'.todo[i]) {
        assert PassedBy(plan, e, e.todo[i]);
      }
      ScanRest(plan, e0, e');
      assert e'.(pc := Wait) == e.(pc := Wait);
    }
  }

  // ----- how often a volume may move

  function Count(plan: seq<Job>, v: nat): nat {
    if plan == [] then 0
    else Count(plan[..|plan| - 1], v) + if plan[|plan| - 1].vol == v then 1 else 0
  }

  /** The planner's limit on the moves of one volume; a negative limit is none. */
  ghost predicate WithinLimit(plan: seq<Job>, nvoltrans: int) {
    nvoltrans >= 0 ==> forall v :: Count(plan, v) <= nvoltrans
  }

  /** In every run, a running move names the partition its volume is really on. */
  ghost predicate KeepsOrder(plan: seq<Job>, n: int, place: map<nat, nat>) {
    forall evs :: Run(plan, Start(plan, n, place), evs) ==>
      var e := After(plan, Start(plan, n, place), evs);
      forall t :: t in e.running && Known(plan, e, t) && e.stage[t] == RwMove ==>
        plan[t].vol in e.place && e.place[plan[t].vol] == plan[t].pfrom
  }

  lemma {:induction false} CountOne(plan: seq<Job>, t: nat)
    requires t < |plan|
    ensures Count(plan, plan[t].vol) >= 1
  {
    if t < |plan| - 1 {
      CountOne(plan[..|plan| - 1], t);
    }
  }

  lemma {:induction false} CountTwo(plan: seq<Job>, t: nat, u: nat)
    requires t < u < |plan| && plan[t].vol == plan[u].vol
    ensures Count(plan, plan[t].vol) >= 2
  {
    if u < |plan| - 1 {
      CountTwo(plan[..|plan| - 1], t, u);
    } else {
      CountOne(plan[..|plan| - 1], t);
    }
  }

  /** Three moves; the second and the third are of the same volume, and the first keeps the
      second waiting. */
  function Overtaking(): seq<Job> {
    [Request(0, false, 0, 0, 3, 3), Request(1, false, 0, 1, 1, 4), Request(1, false, 1, 4, 2, 5)]
  }

  const OVERTAKING_PLACE: map<nat, nat> := map[0 := 0, 1 := 1]

  lemma OvertakingIsSerial()
    ensures Consistent(Overtaking(), OVERTAKING_PLACE)
    ensures forall v :: Count(Overtaking(), v) <= 2
  {
    var p := Overtaking();
    assert p[..0] == [] && p[..1] == [p[0]] && p[..2] == [p[0], p[1]];
    assert [p[0]][..0] == [] && [p[0], p[1]][..1] == [p[0]];
    assert SerialPlace(p[..1], OVERTAKING_PLACE) == OVERTAKING_PLACE[0 := 3];
    assert SerialPlace(p[..2], OVERTAKING_PLACE) == OVERTAKING_PLACE[0 := 3][1 := 4];
    forall v ensures Count(p, v) <= 2 {
      assert Count(p[..1], v) <= 1 && Count(p[..2], v) == Count(p[..1], v) + if v == 1 then 1 else 0;
      assert v == 1 ==> Count(p[..1], v) == 0;
    }
  }

  /** With any number of slots but 0 and 1 the third move is issued while its volume still waits for the
      second. */
  lemma OvertakingLosesOrder(n: int)
    requires n != 0 && n != 1
    ensures !KeepsOrder(Overtaking(), n, OVERTAKING_PLACE)
  {
    var p := Overtaking();
    var e0 := Start(p, n, OVERTAKING_PLACE);
    ReachSelf(p, e0);
    ReachNext(p, e0, e0, Look);
    var e1 := Next(p, e0, Look);
    assert e1.locked == {0, 3} && e1.running == {0} && e1.pc == Scan(0) && e1.mark == map[];
    ReachNext(p, e0, e1, Look);
    var e2 := Next(p, e1, Look);
    assert e2 == e1.(pc := Scan(1));
    ReachNext(p, e0, e2, Look);
    var e3 := Next(p, e2, Look);
    assert e3 == e1.(pc := Scan(2));
    ReachNext(p, e0, e3, Look);
    var e4 := Next(p, e3, Look);
    var evs :| Run(p, e0, evs) && CalmRun(evs) && After(p, e0, evs) == e4;
    assert 2 in e4.running && Known(p, e4, 2) && e4.stage[2] == RwMove && e4.place == OVERTAKING_PLACE;
  }

  // ----- one slot

  /** With one slot the transactions are carried out one after the other: those before the `k`th are over
      and those after it have not begun, and until a shutdown leaves nothing running the volumes are where
      the moves up to there have put them. */
  ghost predicate OneByOne(plan: seq<Job>, place0: map<nat, nat>, e: Machine, k: nat) {
    && k <= |plan| == |e.stage| && e.mark == map[] && e.running <= {k}
    && (forall t :: 0 <= t < k ==> e.stage[t] == Terminal)
    && (forall t :: k < t < |plan| ==> e.stage[t] == RwMove)
    && (e.running == {} && e.pc.Scan? ==> e.pc.pos == 0)
    && ((e.shutdown && e.running == {}) || e.place == SerialPlace(plan[..Begun(plan, e.stage, k)], place0))
  }

  /** The number of moves made when the `k`th transaction is the last that has begun. */
  function Begun(plan: seq<Job>, stage: seq<Stage>, k: nat): (r: nat)
    requires k <= |plan| == |stage|
    ensures r <= |plan|
  {
    if k < |plan| && stage[k] != RwMove then k + 1 else k
  }

  /** The head of the list is the transaction to go on with, or the one after it. */
  lemma HeadIsNext(plan: seq<Job>, place0: map<nat, nat>, e: Machine, k: nat)
    requires ListOk(plan, e) && OneByOne(plan, place0, e, k) && e.todo != [] && e.stage[e.todo[0]] != Terminal
    ensures e.todo[0] in {k, k + 1}
    ensures e.todo[0] == k + 1 ==> e.stage[k] == Terminal && e.stage[k + 1] == RwMove
  {
    var t := e.todo[0];
    assert forall u :: 0 <= u < t ==> u !in e.todo && e.stage[u] == Terminal;
    var u := if k + 1 < |plan| then k + 1 else |plan| - 1;
    assert u > k ==> e.stage[u] == RwMove;
  }

  /** Without marks and locks whatever is not over can be dispatched. */
  lemma FreeToGo(plan: seq<Job>, e: Machine, t: nat)
    requires Exclusive(plan, e) && MarksOk(e) && e.running == {} && e.mark == map[]
    requires t < |plan| && e.stage[t] != Terminal
    ensures e.locked == {} && Avail(e, plan[t], e.stage[t])
  {
  }

  lemma DispatchOneByOne(plan: seq<Job>, place0: map<nat, nat>, e: Machine, k: nat, t: nat)
    requires OneByOne(plan, place0, e, k) && e.running == {} && e.pc.Scan? && t < |plan| && t in {k, k + 1}
    requires t == k + 1 ==> e.stage[k] == Terminal && e.stage[k + 1] == RwMove
    requires e.stage[t] != Terminal && Avail(e, plan[t], e.stage[t]) && e.locked == {} && !e.shutdown
    ensures OneByOne(plan, place0, Dispatch(e, plan[t], e.stage[t], t), t)
  {
    hide SerialPlace;
    var e' := Dispatch(e, plan[t], e.stage[t], t);
    assert e'.running == {t} && e'.mark == map[] && e'.stage == e.stage && e'.place == e.place;
    assert Begun(plan, e.stage, t) == Begun(plan, e.stage, k);
  }

  lemma LookKeepsOneByOne(plan: seq<Job>, place0: map<nat, nat>, e: Machine, k: nat) returns (k': nat)
    requires Exclusive(plan, e) && ListOk(plan, e) && MarksOk(e) && e.running == {}
    requires OneByOne(plan, place0, e, k) && Scanning(plan, e)
    ensures OneByOne(plan, place0, LookAt(plan, e), k')
  {
    hide SerialPlace, Exclusive, ListOk, Dispatch, Avail;
    var t := e.todo[0];
    k' := k;
    if e.stage[t] != Terminal {
      HeadIsNext(plan, place0, e, k);
      FreeToGo(plan, e, t);
      DispatchOneByOne(plan, place0, e, k, t);
      k' := t;
    }
  }

  lemma SerialNext(plan: seq<Job>, place0: map<nat, nat>, k: nat)
    requires k < |plan|
    ensures SerialPlace(plan[..k + 1], place0) == SerialPlace(plan[..k], place0)[plan[k].vol := plan[k].pto]
  {
    assert plan[..k + 1][..k] == plan[..k];
  }

  lemma FinishKeepsOneByOne(plan: seq<Job>, place0: map<nat, nat>, e: Machine, k: nat, ok: bool)
    requires OneByOne(plan, place0, e, k) && k in e.running && k < |plan| && e.stage[k] != Terminal
    requires Held(e, plan[k], e.stage[k])
    ensures OneByOne(plan, place0, Reap(e, plan[k], k, ok), k)
  {
    SerialNext(plan, place0, k);
    hide SerialPlace;
    var e' := Reap(e, plan[k], k, ok);
    assert e'.running == {} && e'.mark == e.mark && e'.pc == Scan(0) && e'.shutdown == (e.shutdown || !ok);
    assert e'.stage == e.stage[k := Transition(e.stage[k], plan[k].bkexist)];
  }

  lemma StepKeepsOneByOne(plan: seq<Job>, place0: map<nat, nat>, e: Machine, k: nat, ev: Event) returns (k': nat)
    requires Inv(plan, 1, e) && OneByOne(plan, place0, e, k) && Enabled(plan, e, ev)
    ensures OneByOne(plan, place0, Next(plan, e, ev), k')
  {
    k' := k;
    match ev
    case Look => k' := LookKeepsOneByOne(plan, place0, e, k);
    case Finish(t, ok) =>
      HoldsHeld(plan, e, k);
      FinishKeepsOneByOne(plan, place0, e, k, ok);
    case _ =>
  }

  lemma {:induction false} RunKeepsOneByOne(plan: seq<Job>, place0: map<nat, nat>, e: Machine, k: nat, evs: seq<Event>)
    returns (k': nat)
    requires Inv(plan, 1, e) && OneByOne(plan, place0, e, k) && Run(plan, e, evs)
    ensures OneByOne(plan, place0, After(plan, e, evs), k')
    decreases evs
  {
    k' := k;
    if evs != [] {
      k' := StepKeepsOneByOne(plan, place0, e, k, evs[0]);
      StepKeepsInv(plan, 1, e, evs[0]);
      k' := RunKeepsOneByOne(plan, place0, Next(plan, e, evs[0]), k', evs[1..]);
    }
  }

  lemma OneSlotKeepsOrder(plan: seq<Job>, place: map<nat, nat>)
    requires Consistent(plan, place)
    ensures KeepsOrder(plan, 1, place)
  {
    var e := Start(plan, 1, place);
    StartInv(plan, 1, place);
    assert plan[..0] == [];
    forall evs | Run(plan, e, evs)
      ensures var e' := After(plan, e, evs);
        forall t :: t in e'.running && Known(plan, e', t) && e'.stage[t] == RwMove ==>
          plan[t].vol in e'.place && e'.place[plan[t].vol] == plan[t].pfrom
    {
      var k := RunKeepsOneByOne(plan, place, e, 0, evs);
    }
  }

  /** With no slot nothing is ever carried out. */
  lemma NoSlotKeepsOrder(plan: seq<Job>, place: map<nat, nat>)
    ensures KeepsOrder(plan, 0, place)
  {
    var e := Start(plan, 0, place);
    StartInv(plan, 0, place);
    forall evs | Run(plan, e, evs) ensures After(plan, e, evs).running == {} {
      Safety(plan, 0, e, evs);
    }
  }

  // ----- when the order is kept

  /** With `n` slots and at most `nvoltrans` moves of a volume, the serial order of every consistent list is
      kept if and only if a volume moves at most once (the default), or there is at most one slot.  Else a
      later move of a volume can overtake an earlier. */
  lemma OrderIffOneMove(nvoltrans: int, n: int)
    ensures (forall plan, place ::
                Consistent(plan, place) && WithinLimit(plan, nvoltrans) ==> KeepsOrder(plan, n, place))
       <==> 0 <= nvoltrans <= 1 || n == 0 || n == 1
  {
    if 0 <= nvoltrans <= 1 || n == 0 || n == 1 {
      forall plan, place | Consistent(plan, place) && WithinLimit(plan, nvoltrans)
        ensures KeepsOrder(plan, n, place)
      {
        if n == 0 {
          NoSlotKeepsOrder(plan, place);
        } else if n == 1 {
          OneSlotKeepsOrder(plan, place);
        } else {
          OneMoveKeepsOrder(plan, n, place, nvoltrans);
        }
      }
    } else {
      OvertakingIsSerial();
      OvertakingLosesOrder(n);
      assert Consistent(Overtaking(), OVERTAKING_PLACE) && WithinLimit(Overtaking(), nvoltrans);
    }
  }

  lemma OneMoveKeepsOrder(plan: seq<Job>, n: int, place: map<nat, nat>, nvoltrans: int)
    requires 0 <= nvoltrans <= 1 && Consistent(plan, place) && WithinLimit(plan, nvoltrans)
    ensures KeepsOrder(plan, n, place)
  {
    forall t, u | 0 <= t < u < |plan| ensures plan[t].vol != plan[u].vol {
      if plan[t].vol == plan[u].vol {
        CountTwo(plan, t, u);
      }
    }
    var e := Start(plan, n, place);
    StartInv(plan, n, place);
    StartWaiting(plan, n, place);
    forall evs | Run(plan, e, evs) ensures Waiting(plan, After(plan, e, evs)) {
      IssuedMovesAreReal(plan, n, e, evs);
    }
  }

  // ----- how many slots

  /** Two backups hold the destinations of two crossing moves one after the other. */
  function Crossing(): seq<Job> {
    [Request(0, true, 2, 2, 1, 3), Request(1, false, 0, 0, 1, 1),
     Request(2, false, 1, 1, 0, 0), Request(3, true, 3, 4, 0, 5)]
  }

  const CROSSING_PLACE: map<nat, nat> := map[0 := 2, 1 := 0, 2 := 1, 3 := 4]

  ghost predicate Acceptable(plan: seq<Job>, place: map<nat, nat>) {
    OncePerVolume(plan) && Consistent(plan, place)
  }

  lemma CrossingIsSerial()
    ensures Acceptable(Crossing(), CROSSING_PLACE)
  {
    var p := Crossing();
    forall t | 0 <= t < |p|
      ensures p[t].vol in SerialPlace(p[..t], CROSSING_PLACE)
        && SerialPlace(p[..t], CROSSING_PLACE)[p[t].vol] == p[t].pfrom
    {
      SerialUntouched(p[..t], CROSSING_PLACE, p[t].vol);
    }
  }

  /** The move to the server of the first backup runs; a mark is left on partition 0. */
  lemma CrossingBegins(n: int) returns (e: Machine)
    requires n != 0 && n != 1
    ensures Reaches(Crossing(), Start(Crossing(), n, CROSSING_PLACE), e)
    ensures e.todo == [0, 1, 2, 3] && !e.shutdown
    ensures e.stage == [RwMove, RwMove, RwMove, RwMove] && e.locked == {1, 2} && e.mark == map[0 := 2]
    ensures e.lockid == 2 && e.nprocs == n - 1 && e.running == {0} && e.pc == Scan(2)
  {
    var p := Crossing();
    var e0 := Start(p, n, CROSSING_PLACE);
    assert e0.todo == [0, 1, 2, 3] && e0.stage == [RwMove, RwMove, RwMove, RwMove];
    ReachSelf(p, e0);
    ReachNext(p, e0, e0, Look);
    var e1 := Next(p, e0, Look);
    assert e1.locked == {2, 1} && e1.running == {0} && e1.pc == Scan(0) && e1.lockid == 2;
    ReachNext(p, e0, e1, Look);
    var e2 := Next(p, e1, Look);
    assert e2 == e1.(pc := Scan(1));
    ReachNext(p, e0, e2, Look);
    e := Next(p, e2, Look);
    assert e == e1.(mark := map[0 := 2], pc := Scan(2));
  }

  /** The move to the server of the second backup starts too. */
  lemma CrossingStarts(n: int) returns (e: Machine)
    requires n != 0 && n != 1
    ensures Reaches(Crossing(), Start(Crossing(), n, CROSSING_PLACE), e)
    ensures e.todo == [0, 1, 2, 3] && !e.shutdown
    ensures e.stage == [RwMove, RwMove, RwMove, RwMove] && e.locked == {0, 1, 2, 3} && e.mark == map[0 := 2]
    ensures e.lockid == 3 && e.nprocs == n - 2 && e.running == {0, 3} && e.pc == Wait
  {
    var p := Crossing();
    var e0 := Start(p, n, CROSSING_PLACE);
    var e3 := CrossingBegins(n);
    ReachNext(p, e0, e3, Look);
    var e4 := Next(p, e3, Look);
    assert e4 == e3.(pc := Scan(3));
    ReachNext(p, e0, e4, Look);
    var e5 := Next(p, e4, Look);
    assert e5.locked == {0, 1, 2, 3} && e5.running == {0, 3} && e5.pc == Scan(3) && e5.lockid == 3;
    ScanRest(p, e0, e5);
    e := e5.(pc := Wait);
  }

  /** The first backup starts while the other move runs. */
  lemma CrossingBacksUp(n: int) returns (e: Machine)
    requires n != 0 && n != 1
    ensures Reaches(Crossing(), Start(Crossing(), n, CROSSING_PLACE), e)
    ensures e.todo == [0, 1, 2, 3] && !e.shutdown
    ensures e.stage == [RwBackup, RwMove, RwMove, RwMove] && e.locked == {0, 1, 3} && e.mark == map[0 := 2]
    ensures e.lockid == 4 && e.nprocs == n - 2 && e.running == {0, 3} && e.pc == Wait
  {
    var p := Crossing();
    var e0 := Start(p, n, CROSSING_PLACE);
    var e1 := CrossingStarts(n);
    ReachNext(p, e0, e1, Finish(0, true));
    var e2 := Next(p, e1, Finish(0, true));
    assert e2.locked == {0, 3} && e2.running == {3} && e2.pc == Scan(0) && e2.lockid == 4;
    assert e2.stage == [RwBackup, RwMove, RwMove, RwMove];
    ReachNext(p, e0, e2, Look);
    var e3 := Next(p, e2, Look);
    assert e3.locked == {0, 1, 3} && e3.running == {0, 3} && e3.pc == Scan(0);
    ScanRest(p, e0, e3);
    e := e3.(pc := Wait);
  }

  /** While it runs, a mark is left on partition 0. */
  lemma CrossingMarksOne(n: int) returns (e: Machine)
    requires n != 0 && n != 1
    ensures Reaches(Crossing(), Start(Crossing(), n, CROSSING_PLACE), e)
    ensures e.todo == [0, 1, 2, 3] && !e.shutdown
    ensures e.stage == [RwBackup, RwMove, RwMove, RwBackup] && e.locked == {1} && e.mark == map[0 := 5]
    ensures e.lockid == 5 && e.nprocs == n - 1 && e.running == {0} && e.pc == Scan(2)
  {
    var p := Crossing();
    var e0 := Start(p, n, CROSSING_PLACE);
    var e1 := CrossingBacksUp(n);
    ReachNext(p, e0, e1, Finish(3, true));
    var e2 := Next(p, e1, Finish(3, true));
    assert e2.locked == {1} && e2.running == {0} && e2.pc == Scan(0) && e2.lockid == 5;
    assert e2.stage == [RwBackup, RwMove, RwMove, RwBackup];
    ReachNext(p, e0, e2, Look);
    var e3 := Next(p, e2, Look);
    assert e3 == e2.(pc := Scan(1));
    ReachNext(p, e0, e3, Look);
    e := Next(p, e3, Look);
    assert e == e2.(mark := map[0 := 5], pc := Scan(2));
  }

  /** The second backup starts. */
  lemma CrossingBacksUpTwice(n: int) returns (e: Machine)
    requires n != 0 && n != 1
    ensures Reaches(Crossing(), Start(Crossing(), n, CROSSING_PLACE), e)
    ensures e.todo == [0, 1, 2, 3] && !e.shutdown
    ensures e.stage == [RwBackup, RwMove, RwMove, RwBackup] && e.locked == {0, 1} && e.mark == map[0 := 5]
    ensures e.lockid == 5 && e.nprocs == n - 2 && e.running == {0, 3} && e.pc == Wait
  {
    var p := Crossing();
    var e0 := Start(p, n, CROSSING_PLACE);
    var e4 := CrossingMarksOne(n);
    ReachNext(p, e0, e4, Look);
    var e5 := Next(p, e4, Look);
    assert e5 == e4.(pc := Scan(3));
    ReachNext(p, e0, e5, Look);
    var e6 := Next(p, e5, Look);
    assert e6.locked == {0, 1} && e6.running == {0, 3} && e6.pc == Scan(3);
    ScanRest(p, e0, e6);
    e := e6.(pc := Wait);
  }

  /** The first backup ends without advancing the lock number, and its transaction is snipped. */
  lemma CrossingSnips(n: int) returns (e: Machine)
    requires n != 0 && n != 1
    ensures Reaches(Crossing(), Start(Crossing(), n, CROSSING_PLACE), e)
    ensures e.todo == [1, 2, 3] && !e.shutdown
    ensures e.stage == [Terminal, RwMove, RwMove, RwBackup] && e.locked == {0} && e.mark == map[0 := 5]
    ensures e.lockid == 5 && e.nprocs == n - 1 && e.running == {3} && e.pc == Scan(0)
  {
    var p := Crossing();
    var e0 := Start(p, n, CROSSING_PLACE);
    var e1 := CrossingBacksUpTwice(n);
    ReachNext(p, e0, e1, Finish(0, true));
    var e2 := Next(p, e1, Finish(0, true));
    assert e2.locked == {0} && e2.running == {3} && e2.pc == Scan(0) && e2.lockid == 5;
    assert e2.stage == [Terminal, RwMove, RwMove, RwBackup];
    ReachNext(p, e0, e2, Look);
    e := Next(p, e2, Look);
    assert e.todo == [1, 2, 3] && e == e2.(todo := [1, 2, 3]);
  }

  /** The other partition is marked at the same lock number. */
  lemma CrossingMarksTwo(n: int) returns (e: Machine)
    requires n != 0 && n != 1
    ensures Reaches(Crossing(), Start(Crossing(), n, CROSSING_PLACE), e)
    ensures e.todo == [1, 2, 3] && !e.shutdown
    ensures e.stage == [Terminal, RwMove, RwMove, RwBackup] && e.locked == {0} && e.mark == map[0 := 5, 1 := 5]
    ensures e.lockid == 5 && e.nprocs == n - 1 && e.running == {3} && e.pc == Wait
  {
    var p := Crossing();
    var e0 := Start(p, n, CROSSING_PLACE);
    var e3 := CrossingSnips(n);
    ReachNext(p, e0, e3, Look);
    var e4 := Next(p, e3, Look);
    assert e4 == e3.(pc := Scan(1));
    ReachNext(p, e0, e4, Look);
    var e5 := Next(p, e4, Look);
    assert e5 == e4.(mark := map[0 := 5, 1 := 5], pc := Scan(2));
    ScanRest(p, e0, e5);
    e := e5.(pc := Wait);
  }

  /** No server is locked any more, and yet neither move can start: the executor gives up. */
  lemma CrossingGetsStuck(n: int)
    requires n != 0 && n != 1
    ensures !Drains(Crossing(), n, CROSSING_PLACE)
  {
    var p := Crossing();
    var e0 := Start(p, n, CROSSING_PLACE);
    var e1 := CrossingMarksTwo(n);
    ReachNext(p, e0, e1, Finish(3, true));
    var e2 := Next(p, e1, Finish(3, true));
    assert e2.locked == {} && e2.running == {} && e2.pc == Scan(0) && e2.lockid == 5;
    assert e2.stage == [Terminal, RwMove, RwMove, Terminal];
    ReachNext(p, e0, e2, Look);
    var e3 := Next(p, e2, Look);
    assert e3 == e2.(pc := Scan(1));
    ReachNext(p, e0, e3, Look);
    var e4 := Next(p, e3, Look);
    assert e4 == e2.(pc := Scan(2));
    ReachNext(p, e0, e4, Look);
    var e5 := Next(p, e4, Look);
    assert e5.todo == [1, 2] && e5.running == {} && e5.pc == Scan(2);
    ReachNext(p, e0, e5, EndScan);
    ReachNext(p, e0, e5.(pc := Wait), GiveUp);
    var e6 := e5.(pc := Done);
    var evs :| Run(p, e0, evs) && CalmRun(evs) && After(p, e0, evs) == e6;
    assert e6.todo != [];
  }

  /** Every acceptable list is emptied by every undisturbed run if and only if exactly one child may
      run at a time.  The default of four is not safe: backups leave marks that nothing clears. */
  lemma DrainsIffOneSlot(n: int)
    ensures (forall plan, place :: Acceptable(plan, place) ==> Drains(plan, n, place)) <==> n == 1
  {
    if n == 1 {
      forall plan, place | Acceptable(plan, place) ensures Drains(plan, n, place) {
        SurelyDrains(plan, n, place);
      }
    } else if n == 0 {
      NoSlotsNoWork();
    } else {
      CrossingIsSerial();
      CrossingGetsStuck(n);
    }
  }

  /** Without backups, any number of slots but none will do. */
  lemma DrainsWithoutBackups(n: int)
    ensures (forall plan, place :: Acceptable(plan, place) && NoBackups(plan) ==> Drains(plan, n, place)) <==> n != 0
  {
    if n != 0 {
      forall plan, place | Acceptable(plan, place) && NoBackups(plan) ensures Drains(plan, n, place) {
        SurelyDrains(plan, n, place);
      }
    } else {
      NoSlotsNoWork();
    }
  }

  function Single(): seq<Job> {
    [Request(0, false, 0, 0, 1, 1)]
  }

  lemma NoSlotsNoWork()
    ensures Acceptable(Single(), map[0 := 0]) && NoBackups(Single())
    ensures !Drains(Single(), 0, map[0 := 0])
  {
    var p, place := Single(), map[0 := 0];
    assert p[..0] == [];
    var e0 := Start(p, 0, place);
    ReachSelf(p, e0);
    ReachNext(p, e0, e0, EndScan);
    ReachNext(p, e0, e0.(pc := Wait), GiveUp);
    var e := e0.(pc := Done);
    var evs :| Run(p, e0, evs) && CalmRun(evs) && After(p, e0, evs) == e;
    assert e.todo == [0];
  }
}
