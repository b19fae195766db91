/** The vocabulary shared by the planner and the executor of the volume balancer: a planned
    transaction, the stages it passes through, and the commands issued for it. */
module Transactions {

  /** One planned transaction: move `vol` from partition `pfrom` of server `sfrom` to partition
      `pto` of server `sto`.  `bkexist` says that the volume has a backup to be made again. */
  datatype Request<V, S, P> = Request(vol: V, bkexist: bool, sfrom: S, pfrom: P, sto: S, pto: P)

  /** The states 0, 1 and 2 of a transaction. */
  datatype Stage = RwMove | RwBackup | Terminal

  /** The `vos` commands a transaction issues. */
  datatype Command<V, S, P> =
    | Move(vol: V, sfrom: S, pfrom: P, sto: S, pto: P)
    | Backup(vol: V)

  /** The state machine of one transaction. */
  function Transition(stage: Stage, bkexist: bool): Stage {
    match stage
    case RwMove => if bkexist then RwBackup else Terminal
    case RwBackup => Terminal
    case Terminal => Terminal
  }

  function MoveCommand<V, S, P>(r: Request<V, S, P>): Command<V, S, P> {
    Move(r.vol, r.sfrom, r.pfrom, r.sto, r.pto)
  }

  /** The command dispatched in a stage that is not terminal. */
  function CommandOf<V, S, P>(r: Request<V, S, P>, stage: Stage): Command<V, S, P>
    requires stage != Terminal
  {
    if stage == RwMove then MoveCommand(r) else Backup(r.vol)
  }

  /** Everything a transaction issues, in order: one move, and one backup if a backup existed. */
  function Script<V, S, P>(r: Request<V, S, P>): seq<Command<V, S, P>> {
    [MoveCommand(r)] + if r.bkexist then [Backup(r.vol)] else []
  }

  /** The servers a transaction must hold in a stage. */
  function Holds<V, S(==), P>(r: Request<V, S, P>, stage: Stage): set<S> {
    match stage
    case RwMove => {r.sfrom, r.sto}
    case RwBackup => {r.sto}
    case Terminal => {}
  }
}
