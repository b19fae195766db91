# AFS administration tools: a model and its proofs

The repository holds the tools that a large site used to run its AFS cells.  This project models the ones
with an algorithm at their heart and proves what those algorithms are for.

**The volume balancer** (`balance/`).  A planner looks at how full the partitions of a cell are and lists moves
of volumes; an executor then carries out the list with several `vos` processes at a time.

- `Cell`, `Occupancy`, `Options`, `Transactions`: servers, partitions, volumes, moves.
- `Chain`: the doubly linked list of partitions that an agent keeps in order of occupancy, on the heap.
- `Balancing`: the window around the average, and what single moves and discards do to a cell.
- `Bysize`: the agent that balances by size, with its cursors and its open request.
- `Ledger`, `Planner`: entering moves in the cell, and the balance loop with the size agent alone.
  `Planner.PlanCell` is the whole planner: it starts from any cell and ends with a list of moves.
- `Council`: the balance loop with all agents, where each has its turn and all vote, hear of moves and throw
  volumes away.  The votes of the size agent and the number agent, and what the size agent does when it hears of a
  move or a discard, are the real ones; requests are arbitrary, but those of the two leave the destination below
  their bounds for moving, which takes in whatever the size agent's own search answers (`Council.Table.AskSize`).
  `Council.PlanTogether` is the whole planner.
- `Votes`, `Means`: what the agents' approval guarantees, and the running averages of the build without `NEW_MATH`.
- `Schedule`, `Executor`: the executor as a transition system whose events are dispatches, completions and
  failures, and as the code with its lock marks, process table and list; the code refines the system.
- `Marks`: what the locks and the marks achieve in a whole run, told without them.
- `Outcome`, `Drain`, `Echo`, `Limits`: what every run of the executor ends in, when it ends, what it issues,
  and for exactly which limits the order of the plan and the emptying of the list can be relied on.
- `Hash`, `Glob`: the chained hash table and the pattern matcher.

**The display manager** (`afs-krb5/xdm/`): `Displays`.

**The KA server and its forwarder** (`afs-krb5/src/`): `Lifetimes`, `Packets`, `Tickets`, `Verdicts`,
`Forwarder`; `Integers` has C's 32-bit arithmetic.

**Smaller tools**: `PathWalk` (the directory walk of `aklog`), `SparseCopy` (`package`'s file copy), `CellServDB`
(merging and comparing lists of cells), `Sentinel` (the warning counter of the file server monitor).

## What turned out not to hold

- The executor keeps the serial order of every consistent list if and only if a volume is moved at most once, which
  is the default, or there is at most one slot (`Limits.OrderIffOneMove`): one slot keeps the order of any such list
  (`Limits.OneSlotKeepsOrder`), but with more, or with a negative number, a second move of a volume can be issued
  while the first still waits (`Limits.OvertakingLosesOrder`).
- With backups and any number of slots but one, an undisturbed run can stop with transactions left, because
  a backup does not advance the lock number that partition marks are compared with
  (`Limits.CrossingGetsStuck`, `Limits.DrainsIffOneSlot`).  The list on which that happens fills a partition and
  takes a volume from it later.  A list that never does so is emptied with any number of slots
  (`Drain.EmptiedFirstDrains`), and the size agent alone makes only such lists (`Planner.PlannedRun`); with other
  agents, whose proposals are arbitrary, lists of the other kind are not excluded.
- The running mean of the size agent drifts, because a size is divided as an integer (`Means.SizeMeanDrifts`).
- The matcher disagrees with the meaning of globs for exactly the patterns that end in two stars
  (`Glob.MatchIffMeans`).
- A ticket lifetime beyond the table comes back as zero (`Lifetimes.LongestLifetimes`), and a negative one, which a
  request whose end lies before its start asks for, comes back as a positive one exactly when more than 64 times
  five minutes are missing, modulo 256, or something positive follows the table (`Lifetimes.RevivesExactly`).  So a
  ticket can be read back as lasting longer than every maximum lifetime; `Tickets.IssuedExceedsExactly` and, for
  tickets derived from others, `Tickets.DerivedExceedsExactly` say when, and `Tickets.NegativeRequestExceeds` gives a
  request that gets thirty days where ten hours are the limit.
- A derived ticket can be read back as outliving its parent, although the times in its reply never do:
  `Tickets.DerivedTicketOutlivesExactly` says when, and `Tickets.DerivedTicketCanOutlive` gives one.
- While xdm waits for a new X server it reaps every child that exits, and forgets it: a dying display can be left
  waiting for a server that is gone (`Displays.SwallowedExit`, reached by starting, stopping and starting).  Every
  outcome of starting a server keeps the bookkeeping faithful if and only if no other listed display names a
  process at that moment (`Displays.FaithfulStartsExactly`).
- A display that the servers file names while it is dying is removed with its server all the same.  A display that
  the file names is kept through the exit of its server if and only if it was not dying when its line was read
  (`Displays.Manager.Relist`); once gone, it comes back with the next rescan and not before, unless a remote
  display of that name asks (`Displays.Manager.WaitForChild`, `Displays.Manager.RescanServers`).

## Model

| member | source | states |
|---|---|---|
| Schedule.Safety | balance/balance.c:606-786 | along every run, whatever the order of dispatches and completions: a server is locked exactly when one running transaction holds it, no two running transactions share a server, free slots and running transactions add up to the limit, every transaction has issued a prefix of its move and its backup (the latter only with `bkexist`), and neither "lock failed" nor "free lock failed" is reached |
| Schedule.StepKeepsInv | balance/state.c:188-283 | each single event keeps that invariant |
| Schedule.StepEffect | balance/balance.c:758-779 | only a completion changes stages and places: it advances just its own transaction, and places the volume just when a move succeeded |
| Marks.IssuesExactly | balance/state.c:194-242 | in every run, a turn of the scan issues the next command of its transaction, with its volume, servers and partitions, exactly if no running child has to do with the servers it needs and, for a move, no move away from its destination partition has been passed since a move was last issued or collected; all of it told by what the run has done, not by flags and marks |
| Marks.MarkedExactly | balance/state.c:215-236 | in every run the mark of a partition is the present lock number exactly if the scan has passed a move away from it, whose source server was free and whose destination server was not, and since then no move has been issued and no child of one collected |
| Marks.RefusedMovesGoFirst | balance/state.c:224-236 | once the scan has passed such a move, then in every continuation of the run, as long as the lock number is the same, no move to the partition it leaves is available, and none is issued |
| Executor.MoveRequest.StateTransition | balance/state.c:56-73 | the stage becomes the one the transition function gives |
| Executor.Balancer.StateLock | balance/state.c:188-283 | for all four modes, the answer and the new locks and marks are those of the transition system's availability, taking, dropping and refusing, and nothing else changes; what these are good for in a whole run is `Marks.IssuesExactly` and `Marks.RefusedMovesGoFirst` |
| Executor.Balancer.DispatchChild | balance/balance.c:637-691 | forking for an available request is the system's dispatch: slot, process table, log and locks |
| Executor.Balancer.Release | balance/balance.c:776-779 | freeing the locks and advancing the request are the system's drop and transition |
| Executor.Balancer.ReapChild | balance/balance.c:754-786 | collecting a child is the system's reap: its transaction is the one in the process table, a failure begins the shutdown |
| Executor.Balancer.Snip | balance/balance.c:616-622 | a terminal transaction leaves the list, and the others stay in order |
| Executor.Balancer.Turn | balance/balance.c:613-699 | each turn of the dispatch loop is one enabled step of the system |
| Executor.Balancer.DoTransactions | balance/balance.c:588-819 | what the loop does is a run of the system to its end; no child and no lock is left; status 0 is returned exactly for an empty list, no failure and time to spare, and then what was issued is exactly the commands of the serial log, and, with one move per volume, the placement computed serially; every turn of that run issues something exactly when `Marks.IssuesExactly` says so |
| Executor.Balancer.EchoTransactions | balance/balance.c:613-635 | echo mode prints exactly the serial log and empties the list; if the user interrupts it, it has printed a beginning of that log |
| Echo.DrainedRunIssuesAll | balance/balance.c:606-786 | every run that empties the list issues the commands of the serial log, each as often, and for each transaction its move and then, if the volume has a backup, the backup, and nothing else |
| Echo.ShutdownIssuesNothing | balance/balance.c:606-614 | after the failure of a child, the end of the time or an interrupt nothing more is issued |
| Echo.SerialInOrder | balance/balance.c:613-635 | the serial log takes the transactions in their order |
| Outcome.IssuedMovesAreReal | balance/state.c:144-165 | with one move per volume, in every run, failures included, an issued move names the partition the volume is really on |
| Outcome.PlaceIsSerial | balance/balance.c:758-779 | at every point of a run without failures the volumes are where the completed moves, applied in the order of the plan, put them |
| Outcome.DrainedRunIsSerial | balance/balance.c:588-819 | every failure-free run that empties the list ends in the serial placement, whatever the order of completions |
| Drain.RunsAreFinite | balance/balance.c:606-786 | no run is longer than the measure of its first state |
| Drain.Progress | balance/balance.c:606-786 | until the executor is done some undisturbed event is possible |
| Drain.IdleCanDispatch | balance/state.c:194-242 | without backups or with one slot, when no child runs every unfinished transaction can be dispatched |
| Drain.SurelyDrains | balance/balance.c:606-819 | then every undisturbed run of full length empties the list |
| Drain.HeadCanDispatch | balance/state.c:194-242 | for a list that takes no volume from a partition after filling it, backups or not, the head of the list can be dispatched whenever no child runs |
| Drain.EmptiedFirstDrains | balance/balance.c:606-819 | such a list is emptied by every undisturbed run of full length, with any number of slots but 0 |
| Limits.OrderIffOneMove | balance/balance.c:491-498 | for every limit of moves per volume and every number of slots: all consistent lists within the limit keep their serial order in all runs if and only if the limit is 0 or 1 or the number of slots is 0 or 1 |
| Limits.OvertakingLosesOrder | balance/state.c:224-236 | for any other number of slots, the list of three moves whose third overtakes its volume's earlier move |
| Limits.OneSlotKeepsOrder | balance/balance.c:606-786 | with one slot any consistent list, however often it moves a volume, keeps its serial order in every run, with failures and with volumes left over |
| Limits.DrainsIffOneSlot | balance/state.c:243-276 | all acceptable lists are emptied by all undisturbed runs if and only if there is exactly one slot |
| Limits.DrainsWithoutBackups | balance/state.c:194-242 | and for lists without backups if and only if there is any slot |
| Limits.CrossingGetsStuck | balance/state.c:243-276 | for every other number of slots, the list with backups on which a run gets stuck |
| Ledger.ApplyKeepsOk | balance/balance.c:373-407 | a legal move keeps every volume on exactly one list, that of its home, and counts equal to lengths |
| Ledger.ApplyKeepsTotals | balance/balance.c:373-403 | free space plus the sizes of the listed volumes stays the same on every partition |
| Ledger.ReplayKeeps | balance/balance.c:345-415 | so does any legal list of moves, and the homes it leads to are the executor's serial placement |
| Ledger.LegalIsConsistent | balance/balance.c:345-415 | each move of a legal list names the partition its volume is on at that point |
| Planner.UnthreadVol | balance/balance.c:327-335 | takes out the first occurrence of the volume and nothing else |
| Planner.DoMove | balance/balance.c:345-415 | after it the partitions and the volume are what the books say after the move: its size has gone from the free space of one to that of the other, and the volume from its place in one list to the head of the other |
| Planner.MoveKept | balance/balance.c:471-528 | an accepted move keeps what planning keeps: the list replays to the present cell, the agent's lists agree with it, no volume is moved twice, no partition leaves its bounds |
| Planner.DiscardKept | balance/balance.c:494-504 | so does throwing a volume away |
| Planner.MovePlanner.Round | balance/balance.c:442-551 | a round performs one move, with fewer volumes on hot partitions than before and, unless the volume is empty, less excess over the bound, or finds that the agent has given up with nothing movable left |
| Planner.MovePlanner.Balance | balance/balance.c:418-569 | the loop ends; the total excess over the bound has not grown, and has fallen if anything that is not empty was moved; the moves are counted against `ntransactions`; if the limit was not what ended it, no partition above the bound has a volume that may leave it and finds room |
| Planner.PlanCell | balance/balance.c:418-569 | from any cell, with the size agent alone: the window is the one that the source defines for the used and the total space (see `Balancing.WindowAround`), the moves replay to the final cell, each goes to a partition whose globs let the volume in, each volume is moved at most once and `ntimes` counts it, with a limit `nvoltrans` that is not negative no volume is moved more often and there are at most `nvoltrans` moves for each volume (so none when it is 0), a positive `ntransactions` bounds the list, no volume is taken from a partition that was filled before, all partitions end within their bounds, the total excess over the bound for moving has not grown, and has fallen if any volume that is not empty was moved, and, unless the limit of moves was reached or `nvoltrans` is 0, the final cell is locally optimal but for volumes found locked |
| Planner.WindowFits | balance/agent_bysize.c:62-65 | the window of a cell lies around its used space as `Balancing.WindowAround` says |
| Cell.WelcomesExactly | balance/balance.c:453-466 | a partition lets a volume in exactly if it has no globs for it or one of them matches, and none of those against it does |
| Planner.PlannedRun | balance/balance.c:827-902 | every undisturbed run of such a list to its end, with backups and with any number of slots but 0, has emptied it and ends in the cell that was planned |
| Planner.PlannedMovesAreReal | balance/state.c:144-165 | at every point of every run of such a list, failures and interrupts included, each move being carried out names the partition its volume is really on |
| Planner.MovesBounded | balance/balance.c:491-512 | if no volume is moved more than k times, there are at most k moves for each volume |
| Council.Table.Vote | balance/balance.c:471-478 | a request all agree on leaves its destination below the size agent's upper bound, or below its bound for moving if it is its own; the same for the number agent; if there are no others, the vote passes exactly if both like it |
| Council.Table.Deliberate | balance/balance.c:445-508 | the request an agent's turn ends with names a volume where it is, is welcome at its destination, has passed the vote and has not been moved too often; otherwise the agent has given up and no request is open |
| Council.Table.DiscardAll | balance/balance.c:493-497 | when all throw a volume away the size agent's lists still agree with the cell, and no request is open |
| Council.MoveMinuted | balance/balance.c:529-536 | an approved move, whoever proposed it, keeps what the council keeps: the list replays to the present cell, every move in it was approved, the size agent's lists are sorted and list volumes only where they are |
| Council.Table.Perform | balance/balance.c:529-536 | an accepted request is entered in the books, counted and announced to all; the size agent's chain is again linked, indexed and in order of occupancy, also when another agent moved a volume, listed or not |
| Council.Table.AskSize | balance/agent_bysize.c:320-405 | the size agent's own search can be asked in any state the council reaches, also after the other agents' moves, and whatever it answers is a request that may be proposed here |
| Council.Table.Turn | balance/balance.c:442-551 | an agent's turn performs its accepted request, if it has one and that is no null transaction, and nothing else; the turn is fatal exactly when the accepted request is a null transaction, and that has passed the vote |
| Council.Table.Balance | balance/balance.c:418-569 | the loop over all agents ends if `nvoltrans` is not negative or `ntransactions` is positive, with at most `nvoltrans` moves of each volume and for each volume, at most `ntransactions` in all, every move approved by the agents, and the size agent's chain in order; the list is what the rounds made; every round before the last gave each agent its turn and made a move; the last one is silent, all agents having given up, or its last move exhausted `ntransactions`, or it ended with an accepted null transaction |
| Council.PlanTogether | balance/balance.c:418-569 | from any cell, with the size agent and any others: the moves replay to the final cell, each goes to a partition whose globs let the volume in, `ntimes` counts them within the limits, no partition ends fuller than the larger of its start and the size agent's bounds, nor, with the number agent, more crowded than the larger of its start and that agent's bounds, both being those that the source defines for the cell (`Balancing.WindowAround`, `Council.CrowdingFits`); the loop ends only as said above |
| Council.CrowdingFits | balance/agent_bynumber.c:45-46 | the number agent's bounds: times the space, the upper one is the number of volumes and the precision of it more, and the one for moving is halfway there |
| Council.Table.RealRequestsProposed | balance/agent_bysize.c:320-405 | an open request of the size agent, in any state the council reaches, names a volume where it is and leaves its destination below the bound for moving |
| Council.NumberAgent.Servconf | balance/agent_bynumber.c:207-273 | the average that the number agent's bounds are taken from is that of all volumes over all space |
| Council.AgreedRun | balance/state.c:144-165 | with at most one move of each volume, whatever the agents agreed on: every failure-free run that empties the list ends in the cell that was planned, and in every run each move names the partition its volume is really on |
| Planner.StuckIsOptimal | balance/agent_bysize.c:344-405 | when the agent has given up, every volume left on a hot partition was found locked, or must not leave it, or finds room nowhere |
| Planner.OnceTimes | balance/balance.c:491-512 | a list that moves no volume twice counts each at most once |
| Bysize.Agent.FindDest | balance/agent_bysize.c:299-317 | the nearest earlier partition with room for the volume that lets it in, and none exactly when there is none |
| Bysize.Agent.TryVolume | balance/agent_bysize.c:362-392 | a volume is taken exactly when it may leave its partition and has a destination |
| Bysize.Agent.SearchVols | balance/agent_bysize.c:355-398 | the cursor passes only volumes that cannot be moved, and stops behind the first that can |
| Bysize.Agent.Search | balance/agent_bysize.c:344-405 | the walk over the partitions passes only what cannot be moved, and ends only at the end of the chain or with a volume |
| Bysize.Agent.Retry | balance/agent_bysize.c:326-342 | the open request gets its next destination nearer the head, or there is none |
| Bysize.Agent.GetRequest | balance/agent_bysize.c:320-405 | the request returned is open, its volume may leave a hot partition, its destination has room; none means that nothing the agent lists can be moved; every answer lies further on than the last; which partitions are hot and have room is measured by the window that `Bysize.Agent.Servconf` sets |
| Bysize.Agent.InsertV | balance/agent_bysize.c:198-214 | the volume goes in before the first that is not larger, and the cursor stays at its element |
| Bysize.Agent.DelV | balance/agent_bysize.c:217-229 | the volume, if listed, goes out, and the others stay in order |
| Bysize.Agent.Reorder | balance/agent_bysize.c:449-455 | taking two partitions out of the chain and putting them back restores the order of occupancy |
| Bysize.Agent.MoveWrapper | balance/agent_bysize.c:457-474 | the volume changes lists, both stay sorted, and the cursors are begun again exactly when the source has come below the bound (`Balancing.MoveListsMeans`) |
| Bysize.Agent.SetRequest | balance/agent_bysize.c:432-480 | after a move the chain is a well-formed doubly linked permutation of all partitions in order of present occupancy, the index finds each wrapper on it, and the volume lists are the moved ones; a volume it had thrown away is listed again at its destination |
| Bysize.Agent.DiscardV | balance/agent_bysize.c:482-504 | the volume is off its list, the cursor past it, and no request is open |
| Bysize.Agent.Servconf | balance/agent_bysize.c:231-291 | every partition is on the chain once, in order, with all its volumes sorted; the window is that of the true average occupancy, and lies around the used space of the partitions as `Balancing.WindowAround` says |
| Bysize.Agent.Poll | balance/agent_bysize.c:320-405 | asking again while the last request was refused answers with a request further on, or leaves nothing movable |
| Chain.PartChain.Insert | balance/agent_bysize.c:142-174 | the node is threaded onto both chains before the first that is not fuller |
| Chain.PartChain.Delete | balance/agent_bysize.c:177-195 | the node is off both chains and the others keep their order |
| Chain.PartChain.Resort | balance/agent_bysize.c:449-455 | if all but two nodes are in order, all are afterwards |
| Chain.InsertSorted | balance/agent_bysize.c:142-174 | a node put at its slot keeps the order |
| Chain.RemoveBothSorted | balance/agent_bysize.c:449-451 | without the two whose occupancy changed the rest is in order |
| Balancing.WindowOrdered | balance/agent_bysize.c:62-65 | with a precision that is not negative, lower bound, average, bound for moving and upper bound are in this order |
| Balancing.WindowAround | balance/agent_bysize.c:62-65 | the middle of the window, times the space, is the used space; the bound for moving lies halfway from there to the upper bound, and the lower bound as far below it as that above; half the width, times the space twice, is the precision of the product of used and free space; so an empty or full cell has no width, and for a precision from 0 to 1 the bounds are in order and between empty and full |
| Balancing.MoveListsMeans | balance/agent_bysize.c:457-474 | the volume leaves one list and joins the other; every list is begun again if its partition has come below the bound for moving, and otherwise every cursor goes on pointing to its volume or to the end |
| Balancing.JoinListsMeans | balance/agent_bysize.c:457-474 | the same for a volume that was not listed |
| Occupancy.OccOfAll | balance/agent_bysize.c:36-40 | the occupancy of the size is what is not free |
| Balancing.MoveSettles | balance/agent_bysize.c:460-474 | after a move nothing that a cursor has passed can be moved |
| Balancing.MoveCools | balance/agent_bysize.c:344-405 | an accepted move leaves fewer volumes on partitions above the bound |
| Balancing.MoveWithinBounds | balance/agent_bysize.c:299-405 | it makes no partition newly rise above the bound for moving nor newly fall below the lower bound |
| Balancing.MoveLessensExcess | balance/agent_bysize.c:299-405 | the total excess over the bound does not grow, and strictly falls for a volume that is not empty |
| Balancing.NoNullMove | balance/balance.c:525-527 | a partition above the bound has no room, so the null transaction panic cannot happen |
| Votes.NeverOverfull | balance/balance.c:471-478 | in every list whose moves the size agent approved or proposed, which `Council.Table.Balance` shows all to be, no partition ends fuller than the larger of its start and the bounds |
| Votes.NeverAboveUpper | balance/agent_bysize.c:410-424 | with a precision that is not negative that is the upper bound |
| Votes.NeverOvercrowded | balance/agent_bynumber.c:384-403 | the same for the number agent and volumes per size |
| Votes.PerSizeAll | balance/agent_bynumber.c:37-41 | so many volumes to each unit of space, times the space, are the volumes |
| Means.RunningMean.ServconfSize | balance/agent_bysize.c:274-278 | the incremental average over the partitions is their mean occupancy |
| Means.RunningMean.ServconfNumber | balance/agent_bynumber.c:253-257 | the incremental average is the mean number of volumes per size |
| Means.RunningMean.SetRequestSize | balance/agent_bysize.c:475-478 | the update moves the average away from the true mean occupancy of the new cell by exactly what its integer division loses |
| Means.RunningMean.SetRequestNumber | balance/agent_bynumber.c:449-453 | the average is as far from the true mean of the new cell as it was from that of the old one, so one that was the mean stays the mean |
| Means.NumberMeanIsExact | balance/agent_bynumber.c:449-453 | after any legal list of moves the number agent's average is the true mean |
| Means.SizeMeanDrifts | balance/agent_bysize.c:475-478 | the size agent's is the true mean plus exactly what the integer divisions lost |
| Means.DriftBounded | balance/agent_bysize.c:475-478 | which is at most the sum over the moves of the differences of the inverse sizes |
| Hash.HashTable.Find | balance/hash.c:132-143 | the newest element added under the key, if any |
| Hash.HashTable.Update | balance/hash.c:146-162 | replaces the newest element of the key, if any, and no other |
| Hash.HashTable.Add | balance/hash.c:165-182 | the element hides the older ones of its key; other keys keep theirs |
| Hash.HashTable.Del | balance/hash.c:185-205 | takes out the newest element of the key, so that the one before it shows again; other keys keep theirs |
| Hash.EltsRemoved | balance/hash.c:185-205 | taking the first entry with a key out of a shared chain takes that key's newest element and no other key's |
| Glob.DoMatch | balance/match.c:44-91 | computes the matching function, and terminates |
| Glob.DoBracket | balance/match.c:58-74 | computes the bracket scan |
| Glob.DoStarMatch | balance/match.c:97-106 | computes the search behind a star |
| Glob.DoMatchList | balance/match.c:111-123 | computes the list function |
| Glob.BracketReads | balance/match.c:58-74 | over a written class the scan ends behind it and knows whether the character is in it |
| Glob.MatchIffMeans | balance/match.c:44-106 | for every pattern written from ascending ranges without adjacent stars inside, the matcher agrees with the meaning of globs on all 7-bit strings if and only if the pattern does not end in two stars |
| Glob.MatchListIsUnion | balance/match.c:111-123 | a list accepts the union of its globs, the empty one everything |
| Displays.GivesUpExactly | afs-krb5/xdm/dm.c:424-502 | for every record of session exits, each with the kind and the limit its display had then: every exit led to a restart if and only if no exit asks for the end, is unknown or finds a kind that is not restarted, and none is the last of as many open failures in a row as were allowed; and as long as every exit did, the count is the number of open failures at the end |
| Displays.Manager.GivenUpExactly | afs-krb5/xdm/dm.c:424-502 | in any state of the manager with true records: a display has been given up if and only if its record says so, whatever happened between the exits; it is then dying or gone; and one that is listed and not dying counts the open failures its record ends with |
| Displays.RestartsOnlyFileDisplays | afs-krb5/xdm/dm.c:430-502 | only a display of the servers file that is not dying is ever restarted |
| Displays.FateIs | afs-krb5/xdm/dm.c:430-502 | a display comes to its end with its session exactly if it was dying, the code asks for the end or is unknown, its kind is not restarted after the code, or this was the last open failure allowed; otherwise its server has to go in any case after an open failure, a request for a new server or a SIGTERM, and not in any case after the other codes |
| Displays.Manager.FindDisplayByPid | afs-krb5/xdm/dpylist.c:71-81 | the first display with that session, or none exactly when there is none |
| Displays.Manager.FindDisplayByServerPid | afs-krb5/xdm/dpylist.c:83-93 | the same for servers |
| Displays.Manager.RemoveDisplay | afs-krb5/xdm/dpylist.c:131-186 | the display is off the linked list and the others keep their order |
| Displays.Manager.NewDisplay | afs-krb5/xdm/dpylist.c:188-272 | a fresh display at the head, at rest, without processes |
| Displays.Manager.StopDisplay | afs-krb5/xdm/dm.c:651-663 | with a server the display is dying, its processes have been told to go and the rest of the bookkeeping is as it was; without one it is off the list |
| Displays.Manager.RestartDisplay | afs-krb5/xdm/dm.c:669-683 | it waits to be reborn, with its server told to go, exactly if there is one and it must go; else it is at rest |
| Displays.Manager.LoadServerResources | afs-krb5/xdm/resource.c:179-215 | what the configuration has for the display replaces what was read before, and if it has nothing the built-in values do: four attempts to open, one to start a server, which is not terminated |
| Displays.Manager.StartDisplay | afs-krb5/xdm/dm.c:566-637 | a display at rest runs, or stays at rest only when no process could be forked, or leaves the list only when it is local and its server has failed as often as it may be tried; the bookkeeping is kept; what it goes by is what the present configuration has for it, or else what is built in |
| Displays.Manager.StartServer | afs-krb5/xdm/server.c:127-141 | success leaves exactly one living server of the display, the one it names; failure, after all allowed attempts, leaves none |
| Displays.Manager.NewServer | afs-krb5/xdm/server.c:127-229 | starting a server is a step of the relation on bookkeepings: the display names the new server, and whatever exited meanwhile is gone |
| Displays.Children.ServerPause | afs-krb5/xdm/server.c:171-229 | the answer is whether the server is dead; every other child reaped meanwhile is lost |
| Displays.Manager.CheckDisplayStatus | afs-krb5/xdm/dm.c:540-558 | a missing display is dying or gone; another becomes an old entry, at rest it is started, dying it stays dying, and it leaves the list only if something failed |
| Displays.Manager.StartDisplays | afs-krb5/xdm/dm.c:560-564 | the walk reaches every display although displays leave the list under it, and does to each what is said above |
| Displays.Manager.Verdict | afs-krb5/xdm/dm.c:430-502 | the display is stopped exactly in the cases of `Displays.FateIs`, its server is forced to go exactly after the three codes named there, and the count moves on |
| Displays.Manager.SessionEnded | afs-krb5/xdm/dm.c:428-502 | a display that comes to its end is dying, its server told to go, or off the list if it has none; another one with a server waits to be reborn, its server told to go, if the code was an open failure, a request for a new server or SIGTERM, or its server is to be terminated after every session; in all other cases it is at rest and no process is told; unless it was dying, the exit and its verdict go on record |
| Displays.Manager.ServerEnded | afs-krb5/xdm/dm.c:505-531 | a dying display is removed, a waiting one is at rest, a running one's session is told to go |
| Displays.Manager.Reap | afs-krb5/xdm/dm.c:411-535 | with faithful bookkeeping the display dealt with is the one the process was started for; it becomes what is said of it for `Displays.Manager.SessionEnded` or `Displays.Manager.ServerEnded`, its server told to go exactly in the cases named there, and all others are left alone, counts and records included |
| Displays.Manager.ReapAll | afs-krb5/xdm/dm.c:380-538 | whatever exits, with rescans in between: the exit of the session of a display that was not dying goes on its record, once, nothing else goes on any record, and records and counts go on agreeing |
| Displays.Manager.ParseDisplay | afs-krb5/xdm/file.c:203-227 | the first display of the line's name is kept as an old entry, or a new one heads the list if there is none |
| Displays.Manager.ScanServers | afs-krb5/xdm/dm.c:220-259 | each line has a display, and the displays that are not missing are exactly the first ones of the names in the file |
| Displays.Manager.RescanServers | afs-krb5/xdm/dm.c:269-283 | afterwards a display of the servers file that no line chooses is dying or gone; one that a line chooses is dying exactly if it was dying when the line was read, and else is gone only if something failed; every line has its display unless something failed; records and counts of open failures are left alone |
| Displays.Manager.WaitForChild | afs-krb5/xdm/dm.c:380-538 | any sequence of exits, with rescans in between, keeps the bookkeeping; every display of the servers file is then dying, running or waiting, unless something failed; a dying display whose server is among the exits is gone; without rescans no display joins the list; just the exits of the sessions of displays that were not dying go on record, and counts agree with the records |
| Displays.Manager.Relist | afs-krb5/xdm/dm.c:269-538 | a display that the servers file names is still listed after the exit of its server if and only if it was not dying when its line was read, unless something failed or an exit was swallowed; if it was dying no display of its name is left |
| Displays.Manager.Manage | afs-krb5/xdm/xdmcp.c:913-986 | so does a remote request, which stops the display of that name and puts a new one at the head, running unless the fork failed |
| Displays.Manager.StopAll | afs-krb5/xdm/dm.c:348-364 | what is left is dying, and whatever had a server is left |
| Displays.Manager.ShutdownCompletes | afs-krb5/xdm/dm.c:186-203 | when all displays are dying, the list is empty exactly when no living server belongs to it |
| Displays.Manager.Bookkeeping | afs-krb5/xdm/dm.c:566-683 | dying displays and those to be reborn have a living server that has been told to go; displays at rest or to be reborn have no session; no display has two sessions or two servers, and no two share one |
| Displays.Manager.Run | afs-krb5/xdm/dm.c:106-206 | every sequence of exits, rescans, remote requests and shutdowns keeps the bookkeeping, keeps it faithful if no exit is swallowed, keeps dying displays dying until they are removed, and brings no removed display back; it keeps it faithful in any case if the servers file never names more than one display and no remote display asks; whatever lies between the exits, records only grow, every display that is listed and not dying has the count of its record, and a display is given up exactly when its record says so |
| Displays.Manager.FaithfulBooks | afs-krb5/xdm/dpylist.c:71-93 | whether every process that a display names is alive and its own depends on the values in the bookkeeping only |
| Displays.FaithfulStartsExactly | afs-krb5/xdm/server.c:192-210 | every outcome of starting a server keeps faithful bookkeeping faithful if and only if no other listed display names a process at that moment |
| Displays.SwallowedExit | afs-krb5/xdm/server.c:192-210 | from two displays at rest, start one, stop it, and start the other while the first one's server exits: a dying display whose server is gone |
| Forwarder.Relayer.PacketIsReply | afs-krb5/src/ka-forwarder.c:166-183 | true exactly for the address of a server |
| Forwarder.Relayer.Handle | afs-krb5/src/ka-forwarder.c:220-280 | over the datagram buffer: what does not come from a server always goes to the next one, behind a header with the sender's address and followed by what fits; a reply goes without its header to the address in it, and is dropped exactly if it is too short for a header |
| Forwarder.NamedHeader | afs-krb5/src/ka-forwarder.c:235-258 | the address read from a header is the one written, and the body is unchanged |
| Forwarder.StepKeepsInv | afs-krb5/src/ka-forwarder.c:220-280 | every step of clients, forwarder and servers, with loss, repetition and reordering, keeps every datagram what its ends make it |
| Forwarder.RepliesReachTheirClients | afs-krb5/src/fakeka.c:1354-1404 | in every run, what is sent to a client is an unchanged answer that a server computed for that very address and port, from a request it sent |
| Forwarder.RoundRobin | afs-krb5/src/ka-forwarder.c:245-248 | in every run the j-th request that was sent on has gone to the j-th server, counted from the second one and around the ring; so of the full rounds each server has been given one request for each time it is listed and at most as many of the round that has begun, and servers listed once differ by one at most |
| Forwarder.ForwardsExactly | afs-krb5/src/ka-forwarder.c:228-276 | a step of the forwarder puts just the datagram that is due on the network: for a request, always one to the server after the last, behind the header; for a reply with a header, one to the address in it; for a shorter reply none |
| Forwarder.GivenCount | afs-krb5/src/ka-forwarder.c:245-248 | if the j-th of a list is the j-th server of the ring, the list holds every server once for each full round and each time it is listed, and at most once more |
| Lifetimes.ToV4Life | afs-krb5/src/fakeka.c:547-555 | the table search finds the first entry that covers the lifetime, or the end |
| Lifetimes.ShortLifetimes | afs-krb5/src/fakeka.c:547-547 | below the table a lifetime is rounded down to five minutes |
| Lifetimes.LongLifetimes | afs-krb5/src/fakeka.c:548-555 | within it a lifetime becomes the smallest entry that covers it |
| Lifetimes.LongestLifetimes | afs-krb5/src/fakeka.c:548-555 | beyond it the decoded lifetime is 0 |
| Lifetimes.SurvivesExactly | afs-krb5/src/fakeka.c:1016-1019 | a lifetime that is not negative comes back less at most five minutes if and only if it is at most 2591999 |
| Lifetimes.NegativeLifetimes | afs-krb5/src/fakeka.c:547-547 | what every negative lifetime comes back as, by how many times five minutes it lacks, modulo 256 |
| Lifetimes.RevivesExactly | afs-krb5/src/fakeka.c:547-547 | it comes back positive if and only if more than 64 times five minutes are lacking, or fewer and something positive follows the table |
| Lifetimes.OutlastsExactly | afs-krb5/src/fakeka.c:536-555 | a lifetime within a limit, negative or not, is read back as beyond it if and only if it lies within the table, which has no entry from it to the limit, or it is negative and what its byte stands for is beyond the limit |
| Packets.Reader.ReadStr | afs-krb5/src/fakeka.c:675-682 | yields the string up to its 0 exactly when there is one and it fits |
| Packets.Reader.ReadPStr | afs-krb5/src/fakeka.c:666-673 | yields the counted bytes and skips their padding exactly when both are there and fit |
| Packets.Writer.PutBytes | afs-krb5/src/fakeka.c:577-580 | appends exactly when there is room, else the writer has failed |
| Packets.GotStr | afs-krb5/src/fakeka.c:675-682 | a string that was put is read back |
| Packets.GotPStr | afs-krb5/src/fakeka.c:666-673 | so is a counted and padded one |
| Packets.StrExactly | afs-krb5/src/fakeka.c:675-682 | a string is read exactly if it is what stands before the first 0 and fits |
| Packets.PStrExactly | afs-krb5/src/fakeka.c:666-673 | a counted string is read exactly if its length stands before it, it fits, and its padding, whatever that is, comes after it |
| Packets.PadToFour | afs-krb5/src/fakeka.c:672-672 | the padding reaches to the next multiple of four |
| Packets.IntOfBytes | afs-krb5/src/fakeka.c:664-664 | so is a number, modulo 2 to the 32 |
| Packets.NetworkOrder | afs-krb5/src/fakeka.c:579-579 | a number is put with its highest byte first |
| Tickets.MakeReplyPacket | afs-krb5/src/fakeka.c:499-659 | the code says exactly whether the client, and then the service, is unknown or barred; if neither is, a missing key or too small a buffer is an internal error, and else exactly the sealed reply with the sealed ticket in it is written, which says what `Tickets.ReplyMeans` says |
| Tickets.CheckedExactly | afs-krb5/src/fakeka.c:404-490 | a check answers KANOENT exactly for an empty name or one the database does not have, and KABADUSER exactly for a known principal that has expired, whose password has, that must change it, or that is locked out |
| Tickets.BoundedIsLeast | afs-krb5/src/fakeka.c:536-539 | the lifetime is the least of the one asked for and those of client, service and realm |
| Tickets.ReplyMeans | afs-krb5/src/fakeka.c:571-652 | the reply is the header, its number and length, and a part under the key in which challenge, session key, start, end, version of the service key and the five names stand one after the other, followed by a ticket that the key of the service opens to the flags, names, session key, lifetime and start that are due |
| Tickets.SealedOpens | afs-krb5/src/fakeka.c:613-636 | a ticket of names that fit, padded, sealed and opened with the same key, reads back as it was |
| Tickets.ReplyOpens | afs-krb5/src/fakeka.c:583-652 | whoever holds the key finds challenge, session key, times, key version, names, sealed ticket and label at their places |
| Tickets.Authenticate | afs-krb5/src/fakeka.c:688-771 | denies with the code of the first failing check, else orders a reply and returns its code; if the code is 0, the client and the ticket-granting service are known, they and their passwords have not expired, no change of password is due and neither is locked out, and the reply is sealed with the key the database has for that client |
| Tickets.ProperRequestGranted | afs-krb5/src/fakeka.c:703-755 | a request sealed with the client's key is granted with the challenge raised by one, for a ticket-granting ticket in the client's names |
| Verdicts.AuthExactly | afs-krb5/src/fakeka.c:703-755 | a request of this form, whatever its numbers and its sealed block, is granted exactly if the client may have tickets, the length is eight, more follows, and the key of the client opens the block to the tag; which code a client that may not gets; and what is ordered |
| Verdicts.AuthRefusedExactly | afs-krb5/src/fakeka.c:404-523 | an otherwise proper request gets KANOENT exactly if the client, or else the ticket-granting service, is unknown, KABADUSER exactly if the client, or else that service, is barred, and 0 or an internal error exactly if neither |
| Tickets.GetTicket | afs-krb5/src/fakeka.c:774-1072 | opens and reads the embedded ticket in place, denies with the code of the first failing check, else orders a reply and returns its code; if the code is 0, all that holds of the ticket-granting service, of the client in the ticket and of the service asked for, under the name the database has for it, and the reply is sealed with the session key of the ticket |
| Verdicts.TicketRefusedExactly | afs-krb5/src/fakeka.c:814-1057 | every request for a service ticket gets KANOENT or KABADUSER exactly if the service whose ticket is shown, or then the client in that ticket, or then the service asked for, is unknown or barred, and what is ordered is for that client and that service |
| Verdicts.JudgedExactly | afs-krb5/src/fakeka.c:910-1036 | a request with a readable ticket is granted exactly if the ticket is one of this server for this cell, the service is one of the three that are served, the time is between the start less the skew and the end, and the request is prompt; and which of these fails is told by the code |
| Verdicts.AskedFor | afs-krb5/src/fakeka.c:565-566 | whatever name the database has for the service, the new ticket is in the names of the client and of the service asked for |
| Verdicts.Lowered | afs-krb5/src/fakeka.c:984-987 | the cell in lower case is the cell but for the case of its letters, and has no capital |
| Verdicts.FoldsExactly | afs-krb5/src/fakeka.c:929-929 | names are compared as if in lower case |
| Verdicts.DerivedEnds | afs-krb5/src/fakeka.c:1038-1049 | within the clock, a derived reply ends with the embedded ticket or when the request wants it to, whichever is first |
| Tickets.RequestReadsBack | afs-krb5/src/fakeka.c:814-838 | a request put together from a cell, a ticket, names and times is read as meant, and refused exactly if its times are not eight bytes or nothing more follows |
| Tickets.StopsAtZero | afs-krb5/src/fakeka.c:666-673 | what follows a 0 inside a counted string is ignored |
| Tickets.AcceptedExactly | afs-krb5/src/fakeka.c:1004-1036 | a ticket in order is accepted for a prompt request if and only if its start is not within the skew of the origin of the clock, where the comparison wraps around, and the time lies from its start less the skew to its start plus the decoded lifetime |
| Tickets.IssuedIsAccepted | afs-krb5/src/fakeka.c:854-1036 | a ticket-granting ticket issued by this server is read back as issued, whatever its lifetime, and accepted exactly under those conditions, and the new ticket is in the same names under the same session key |
| Tickets.DerivedNeverOutlives | afs-krb5/src/fakeka.c:1038-1049 | the end time of a derived ticket's reply is at most that of the ticket it came from, and its lifetime at most that of client, service and realm |
| Tickets.DerivedTicketOutlivesExactly | afs-krb5/src/fakeka.c:536-555 | the derived ticket itself is read back as ending after its parent if and only if its lifetime, negative or not, is read back as beyond what its parent has left |
| Tickets.IssuedExceedsExactly | afs-krb5/src/fakeka.c:536-555 | a ticket ordered by a request under the client's key is read back as lasting longer than every maximum lifetime if and only if its bounded lifetime is read back as beyond the least of them |
| Tickets.DerivedExceedsExactly | afs-krb5/src/fakeka.c:536-555 | the same for a ticket derived from another one, whatever the times |
| Tickets.NegativeRequestExceeds | afs-krb5/src/fakeka.c:688-771 | the request whose end lies 19500 seconds before its start: granted, for thirty days, where all maximum lifetimes are ten hours |
| Tickets.DerivedTicketCanOutlive | afs-krb5/src/fakeka.c:547-555 | one that outlives its parent by a second |
| PathWalk.Walker.Start | afs-krb5/src/aklog_main.c:897-905 | what is to come is the recursive resolution of the path |
| PathWalk.Walker.NextPath | afs-krb5/src/aklog_main.c:907-964 | returns the next directory of the resolution, which is no link, and leaves the rest; done and too many links exactly when the resolution says so; each call has followed a link or shortened the text |
| PathWalk.ResolveFirst | afs-krb5/src/aklog_main.c:913-957 | the resolution peels off one component of the text at a time |
| PathWalk.WalkTested | afs-krb5/src/aklog_main.c:913-963 | no directory of a walk is a link, nor is any directory on the way to it |
| PathWalk.WalkArrives | afs-krb5/src/aklog_main.c:913-963 | whatever paths lead to, as long as a link stands for what it contains, from the root if that begins with a slash and else from where it is: a completed walk ends at what the given path leads to |
| PathWalk.WalkMeets | afs-krb5/src/aklog_main.c:913-963 | every directory on the way to one that a walk returns has been returned by it |
| PathWalk.WalkDown | afs-krb5/src/aklog_main.c:1113-1116 | the loop over the walk yields the whole resolution and ends; nothing it yields, and no directory on the way there, is a link, and all of these directories are among what it yields |
| SparseCopy.AllZeroBlock | package/cp.c:112-130 | the word and byte scan stays in the buffer, puts the sentinel's bytes back, and reports a hole exactly when the block is all zero |
| SparseCopy.Copy | package/cp.c:88-172 | for every content, block size and pattern of short reads and writes, success means that the target holds exactly the source, in both variants of the end of file; with holes, no block of zeros is written |
| SparseCopy.EndHole | package/cp.c:154-172 | a trailing hole is given its length by one more byte or a truncation |
| CellServDB.SameServers | ucsdb/csdb_operations.c:324-364 | true exactly when both lists have the same servers |
| CellServDB.Merge | ucsdb/csdb_operations.c:144-215 | relinking in place yields the cells of the first list that the second does not name, followed by the second, and warns exactly of those left out |
| CellServDB.KeptExactly | ucsdb/csdb_operations.c:150-215 | kept of the first list are exactly the cells whose names the second does not have, in their order, and all others are left out |
| CellServDB.BuildActionList | ucsdb/csdb_operations.c:225-317 | no list exactly when the local cell would be lost; else, for lists without repeated names, exactly the actions that the difference makes necessary, a new cell, one with other servers or one that is gone, each once; applying them to the old list gives the new one, and there are none exactly when they agree |
| CellServDB.PatchedIsNew | ucsdb/csdb_operations.c:225-317 | the actions turn every old entry into the new one and touch no other |
| CellServDB.EmptyIffSame | ucsdb/csdb_operations.c:225-317 | no action means, and is meant by, agreement up to the order of servers |
| Sentinel.Monitor.CheckPercent | sentinel/handler.c:325-357 | the percentage bit is set exactly at the threshold, and the counter follows it |
| Sentinel.Monitor.CheckDisk | sentinel/handler.c:309-401 | both bits are what the probe says, the counter moves by their change, a newly set bit counts as new trouble |
| Sentinel.Monitor.ProcessServer | sentinel/handler.c:179-306 | a down server has no disk bits; coming up, staying up and going down move the counter by the change of the recount |
| Sentinel.Monitor.ProcessData | sentinel/handler.c:162-177 | after a round of probes the counter equals the number of down servers plus set bits, labels warn exactly when their server is down or their bits are set, and the new warnings are those reported; which they are is `Sentinel.FollowsMeans` |
| Sentinel.FollowsMeans | sentinel/handler.c:179-401 | after a probe a server is down exactly if there was no answer, and then its disks have no warnings; a disk that the answer names has its warnings exactly if a hundred times its used blocks reach so many times all its blocks as the threshold says, and if its free blocks are below the threshold; other disks are as they were |
| Sentinel.FullExactly | sentinel/handler.c:326-330 | the percentage, computed by a division that truncates, is at a threshold exactly if that product is |
| Sentinel.RaisedExactly | sentinel/handler.c:330-385 | counted are the warnings a disk has, and new are those that it has and had not |
| Sentinel.BitSumUpdate | sentinel/handler.c:309-401 | changing one disk changes the recount by the change of its bits |

## Left out

- balance/balance2.c repeats balance/balance.c.
- The week-use agent never begins its partition cursor again for the next server, so nothing complete can be said of its search; the overdraft agent shifts quota that the move has already shifted.
- The search of the number agent repeats that of the size agent with counts; its window as computed from the cell, its vote and its averages are modelled.
- `initialize_cell`, the AFS calls, `select`, logging, reports and the clock; whether a volume is locked is arbitrary each time it is asked, and time and the interrupt may end a run at any moment.
- Executor.Balancer.DoTransactions: a failing `pipe` or `fcntl` is not modelled; a failing `fork` is. The output of the commands is not modelled.
- The lists of transactions to and from servers and partitions that `domove` also keeps, and week use and quota.
- Planner.DoMove: a volume's server is taken to be that of its partition, so `shome` is not a second field.
- Planner.PlanCell: the size agent alone, in the build with `NEW_MATH`; bounds and averages are reals, not floating point; runs with several agents are those of `Council`.
- Council.PlanTogether: the size agent is always there and comes first, as it does in the table of agents; what the other agents propose, and how the week-use and overdraft agents vote, is arbitrary, and so is what the size agent and the number agent propose, as long as it leaves the destination below their bounds for moving, because another agent's move may leave their cursors in another list.  Every agent gives up at some point of its turn, and without a limit on the moves the loop may be left after any number of busy rounds.
- Bysize.Agent.SetRequest: a cursor is a position in the volume list; a wrapper that another agent's move takes from under it, which leaves the source's cursor pointing into another list, is not modelled.
- Bysize.Agent.GetRequest: requests are compared by what they say and not by address, and a partition of capacity 0 is excluded.
- Bysize.Agent.Servconf: partitions come as one list rather than server by server, and the index from partitions to wrappers is a map; the hash table behind it is `Hash`.
- Glob.MatchIffMeans: patterns outside the written form (an unclosed bracket, a chained or descending range, characters beyond 7 bits) are matched by the modelled code, but given no meaning.
- Fixed-size buffers and what is read or written beyond their end; every write is taken to be checked before it is made.
- Displays.Manager.Run: a limit of 0 server attempts, which means trying for ever, is taken as any number of attempts from one on; where the values of the resources come from, authorization, pinging, the session's own work and the XDMCP packets before a session is granted are not modelled; `kill` only records that the process has been told.
- Displays.Manager.Reap: that the display found is the right one is stated for runs in which no exit has been swallowed and no process number is therefore stale.
- Forwarder.RepliesReachTheirClients: clients do not send from the address of a server, and no client talks to a server directly from the forwarder's host, because a server would take its datagram for a forwarded one.
- Tickets.GetTicket: DES is any invertible cipher on bytes, the principal database is a map, and the new session key is given; a lifetime byte beyond the table reads an arbitrary number.
- Tickets.AcceptedExactly: times are within the 31 bits of the clock.
- Tickets.DerivedTicketOutlivesExactly: times are within the 31 bits of the clock.
- The rest of aklog, the other Kerberos programs, the greeter and the chooser, pcnfsd, vmon, the cache dumpers and reauth wrap libraries or do input and output.
- package's checks and updates are live file system calls.
- PathWalk.WalkDown: the file system is a fixed map from names to link texts, the number of links allowed is a parameter, and buffers do not overflow; the mount point lookup between two steps is not modelled.
- SparseCopy.Copy: a block size of 0 is excluded; ownership, mode and times of the target are not modelled.
- CellServDB.Merge: names are compared as they stand; parsing, formatting and the processing of the actions are not modelled.
- Sentinel.Monitor.ProcessData: threshold setup and the texts and colours of labels are not modelled, and the percentage does not overflow 32 bits.
