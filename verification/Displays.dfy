/** The display manager: every display is a small state machine driven by the exits of its session and
    its server, and all of them sit on one singly linked list. */
module Displays {

  const NO_PROCESS: int := -1

  datatype Status = Running | NotRunning | Zombie | Phoenix
  datatype Entry = NewEntry | OldEntry | MissingEntry
  datatype Kind = Kind(local: bool, permanent: bool, fromFile: bool)
  datatype Code = ObeySess | Remanage | Unmanage | Reserver | OpenFailed | Sigterm | OtherCode

  /** What the manager reloads from its resources whenever it starts a display. */
  datatype Resources = Resources(startAttempts: int, terminateServer: bool, serverAttempts: nat)

  const BUILT_IN: Resources := Resources(4, false, 1)

  // ----- what the exit of a session decides

  datatype Fate = Stop | Restart(force: bool)

  function FateOf(kind: Kind, zombie: bool, tries: int, attempts: int, code: Code): Fate {
    match code
    case Unmanage | OtherCode => Stop
    case ObeySess => if !kind.permanent || zombie then Stop else Restart(false)
    case OpenFailed => if !kind.fromFile || zombie || tries + 1 >= attempts then Stop else Restart(true)
    case Reserver | Sigterm => if !kind.fromFile || zombie then Stop else Restart(true)
    case Remanage => if !kind.fromFile || zombie then Stop else Restart(false)
  }

  function TriesAfter(kind: Kind, zombie: bool, tries: int, code: Code): int {
    match code
    case Unmanage | OtherCode => tries
    case OpenFailed => if kind.fromFile && !zombie then tries + 1 else tries
    case _ => 0
  }

  /** A display comes to its end with its session: it was dying, or was asked to end, or is of a kind that is
      not restarted after this code, or could not be opened as often as is allowed. */
  ghost predicate EndsWith(kind: Kind, dying: bool, tries: int, attempts: int, code: Code) {
    || dying || code in {Unmanage, OtherCode}
    || !(if code == ObeySess then kind.permanent else kind.fromFile)
    || (code == OpenFailed && tries + 1 >= attempts)
  }

  lemma FateIs(kind: Kind, dying: bool, tries: int, attempts: int, code: Code)
    ensures var fate := FateOf(kind, dying, tries, attempts, code);
      && (fate == Stop <==> EndsWith(kind, dying, tries, attempts, code))
      && (fate.Restart? ==> (fate.force <==> code in {OpenFailed, Reserver, Sigterm}))
  {
  }

  /** The exit of a session of a display that was not dying: the code, and the kind and the limit on open
      failures that the display had then. */
  datatype Ended = Ended(code: Code, kind: Kind, attempts: int)

  /** The count of failures after the exits on record. */
  function Tries(r: seq<Ended>): int {
    if r == [] then 0
    else var e := r[|r| - 1]; TriesAfter(e.kind, false, Tries(r[..|r| - 1]), e.code)
  }

  /** Every exit on record has led to a restart. */
  predicate Survives(r: seq<Ended>) {
    r == []
    || (Survives(r[..|r| - 1])
        && var e := r[|r| - 1]; FateOf(e.kind, false, Tries(r[..|r| - 1]), e.attempts, e.code).Restart?)
  }

  /** The last `n` exits on record are open failures. */
  ghost predicate Streak(r: seq<Ended>, n: int) {
    n <= |r| && forall i :: |r| - n <= i < |r| ==> i >= 0 && r[i].code == OpenFailed
  }

  /** An exit with `code` has been put on record. */
  ghost predicate Logged(before: seq<Ended>, r: seq<Ended>, code: Code) {
    r != [] && r[..|r| - 1] == before && r[|r| - 1].code == code
  }

  /** The last exit on record does not ask for the end and is known, its display is of a kind that is
      restarted, and it is not the last of as many open failures as were allowed. */
  ghost predicate Bearable(r: seq<Ended>)
    requires r != []
  {
    var e := r[|r| - 1];
    && e.code != Unmanage && e.code != OtherCode
    && (if e.code == ObeySess then e.kind.permanent else e.kind.fromFile)
    && !Streak(r, AtLeastOne(e.attempts))
  }

  ghost predicate Tolerable(r: seq<Ended>) {
    forall k :: 0 < k <= |r| ==> Bearable(r[..k])
  }

  /** How many open failures the record ends with. */
  ghost function Trailing(r: seq<Ended>): nat {
    if r == [] || r[|r| - 1].code != OpenFailed then 0 else Trailing(r[..|r| - 1]) + 1
  }

  /** A limit of 0 stands for any number of attempts. */
  function Attempts(resources: Resources): int {
    AtLeastOne(resources.serverAttempts)
  }

  function AtLeastOne(attempts: int): int {
    if attempts < 1 then 1 else attempts
  }

  lemma LoggedLast(before: seq<Ended>, e: Ended)
    ensures Logged(before, before + [e], e.code)
  {
  }

  lemma RecordMore(r: seq<Ended>, e: Ended)
    ensures Tries(r + [e]) == TriesAfter(e.kind, false, Tries(r), e.code)
    ensures Survives(r + [e]) <==>
      Survives(r) && FateOf(e.kind, false, Tries(r), e.attempts, e.code).Restart?
  {
    assert (r + [e])[..|r|] == r;
  }

  lemma NoRecord()
    ensures Tries([]) == 0 && Survives([])
  {
  }

  lemma {:induction false} TrailingStreak(r: seq<Ended>, n: int)
    ensures Streak(r, n) <==> n <= Trailing(r)
  {
    if n > 0 && r != [] && r[|r| - 1].code == OpenFailed {
      var rest := r[..|r| - 1];
      TrailingStreak(rest, n - 1);
      assert forall i :: 0 <= i < |rest| ==> rest[i] == r[i];
      if Streak(rest, n - 1) {
        assert Streak(r, n);
      }
      if Streak(r, n) {
        assert Streak(rest, n - 1);
      }
    } else if n > 0 && r != [] {
      assert |r| - n <= |r| - 1 < |r|;
    }
  }

  lemma {:induction false} TolerableMore(r: seq<Ended>)
    requires r != []
    ensures Tolerable(r) <==> Tolerable(r[..|r| - 1]) && Bearable(r)
  {
    var rest := r[..|r| - 1];
    assert forall k :: 0 < k <= |rest| ==> rest[..k] == r[..k];
    assert r[..|r|] == r;
  }

  /** The exits on record have all led to a restart exactly if none asks for the end, is unknown, or is the
      last of as many open failures in a row as were allowed; failures apart from each other never add up,
      and as long as there are restarts, the count is the number of failures at the end. */
  lemma {:induction false} GivesUpExactly(r: seq<Ended>)
    ensures Survives(r) <==> Tolerable(r)
    ensures Survives(r) ==> Tries(r) == Trailing(r)
  {
    if r != [] {
      GivesUpExactly(r[..|r| - 1]);
      TolerableMore(r);
      TrailingStreak(r, AtLeastOne(r[|r| - 1].attempts));
    }
  }

  /** Only a display of the servers file that is not dying is ever restarted. */
  lemma RestartsOnlyFileDisplays(kind: Kind, zombie: bool, tries: int, attempts: int, code: Code)
    requires kind.permanent == kind.fromFile
    ensures FateOf(kind, zombie, tries, attempts, code).Restart? ==> kind.fromFile && !zombie
  {
  }

  lemma DyingStops(kind: Kind, tries: int, attempts: int, code: Code)
    ensures FateOf(kind, true, tries, attempts, code) == Stop
  {
  }

  // ----- the displays and the processes

  class Display {
    var next: Display?
    const name: string
    var kind: Kind
    var status: Status
    var pid: int
    var serverPid: int
    var state: Entry
    var startTries: int
    var resources: Resources

    constructor (name: string, kind: Kind, next: Display?)
      ensures this.name == name && this.kind == kind && this.next == next
      ensures status == NotRunning && pid == NO_PROCESS && serverPid == NO_PROCESS && state == NewEntry
      ensures startTries == 0
    {
      this.name, this.kind, this.next := name, kind, next;
      status, pid, serverPid, state := NotRunning, NO_PROCESS, NO_PROCESS, NewEntry;
      startTries, resources := 0, Resources(0, false, 1);
    }

    /** A dying or a reborn display still waits for its server; a display at rest or waiting to be reborn
        has no session; a running one has. */
    ghost predicate Sound()
      reads this`status, this`pid, this`serverPid
    {
      && (status == Zombie || status == Phoenix ==> serverPid != NO_PROCESS)
      && (status == NotRunning || status == Phoenix ==> pid == NO_PROCESS)
      && (status == Running ==> pid != NO_PROCESS)
    }
  }

  /** What a walk over the list finds of a display. */
  datatype Glimpse = Glimpse(status: Status, state: Entry, server: int)

  /** A walk: the displays it began with, those it has dealt with, and the setbacks before it. */
  datatype Walk = Walk(was: map<Display, Glimpse>, done: set<Display>, since: nat)

  /** The living children of the manager, each with the display it was started for. */
  class Children {
    var sessions: map<int, Display>
    var servers: map<int, Display>
    var told: set<int>           // processes that have been sent their termination signal
    ghost var lost: set<int>     // processes whose exit was swallowed by the wait for some other server
    ghost var setbacks: nat      // forks that failed and servers that died at once

    constructor ()
      ensures sessions == map[] && servers == map[] && told == {} && lost == {} && setbacks == 0
    {
      sessions, servers, told, lost, setbacks := map[], map[], {}, {}, 0;
    }

    ghost predicate Apart()
      reads this`sessions, this`servers
    {
      && sessions.Keys !! servers.Keys
      && (forall p :: p in sessions ==> p > 0)
      && (forall p :: p in servers ==> p > 0)
    }

    /** fork: it may fail, and a number that belongs to a living child is never given out again. */
    method Fork() returns (pid: int)
      requires Apart()
      modifies this`setbacks
      ensures pid == NO_PROCESS || (pid > 0 && pid !in sessions && pid !in servers)
      ensures setbacks == old(setbacks) + if pid == NO_PROCESS then 1 else 0
    {
      pid := *;
      if pid <= 0 || pid in sessions || pid in servers {
        pid, setbacks := NO_PROCESS, setbacks + 1;
      }
    }

    /** Some children may have gone; no new ones have come but servers of `d`. */
    twostate predicate OnlyNewServersOf(d: Display)
      reads this
    {
      && (forall p :: p in sessions ==> p in old(sessions) && sessions[p] == old(sessions)[p])
      && (forall p :: p in servers && servers[p] != d ==> p in old(servers) && servers[p] == old(servers)[p])
      && (forall p :: p in sessions || (p in servers && servers[p] != d) ==> p in old(told) ==> p in told)
      && old(lost) <= lost
      && (lost == {} ==> forall p :: p in old(sessions) ==> p in sessions)
      && (lost == {} ==>
           forall p :: p in old(servers) && old(servers)[p] != d ==> p in servers && servers[p] == old(servers)[p])
    }

    method Born(pid: int)
      modifies this`told
      ensures told == old(told) - {pid}
    {
      told := told - {pid};
    }

    method Terminate(pid: int)
      modifies this`told
      ensures told == old(told) + {pid}
    {
      told := told + {pid};
    }

    /** The children in `reaped` have exited during the wait for `server`. */
    method Swallow(reaped: set<int>, server: int)
      requires Apart() && server in servers
      modifies this`sessions, this`servers, this`lost
      ensures Apart()
      ensures sessions == old(sessions) - reaped && servers == old(servers) - reaped
      ensures lost == old(lost) + (reaped * (old(sessions.Keys) + old(servers.Keys)) - {server})
    {
      lost := lost + (reaped * (sessions.Keys + servers.Keys) - {server});
      sessions, servers := sessions - reaped, servers - reaped;
    }

    /** The wait for a new server reaps whatever child exits meanwhile and looks at none but the server. */
    method ServerPause(server: int) returns (dead: bool, ghost reaped: set<int>)
      requires Apart() && server in servers
      modifies this`sessions, this`servers, this`lost, this`setbacks
      ensures Apart()
      ensures dead <==> server in reaped
      ensures sessions == old(sessions) - reaped && servers == old(servers) - reaped
      ensures setbacks == old(setbacks) + if dead then 1 else 0
      ensures forall p :: p in sessions ==> p in old(sessions) && sessions[p] == old(sessions)[p]
      ensures forall p :: p in servers ==> p in old(servers) && servers[p] == old(servers)[p]
      ensures old(lost) <= lost
      ensures forall p :: p in old(sessions) && p !in sessions ==> p in lost
      ensures forall p :: p in old(servers) && p !in servers && p != server ==> p in lost
    {
      var gone: set<int> := *;
      Swallow(gone, server);
      reaped := gone;
      dead := server !in servers;
      setbacks := setbacks + if dead then 1 else 0;
    }
  }

  // ----- the manager

  /** A line of the servers file. */
  datatype Line = Line(name: string, local: bool)

  /** A child's exit, and whether the servers file is found changed at that moment. */
  datatype Exit = Exit(pid: int, code: Code, changed: bool, lines: seq<Line>, config: map<string, Resources>)

  datatype Event =
    | Exits(exits: seq<Exit>)
    | Hangup(lines: seq<Line>, config: map<string, Resources>)
    | RemoteRequest(name: string)
    | Shutdown

  class Manager {
    var displays: Display?
    const children: Children
    var config: map<string, Resources>
    ghost var list: seq<Display>
    ghost var ended: map<Display, seq<Ended>>   // the exits of the sessions of displays that were not dying
    ghost var givenUp: set<Display>             // the displays stopped because of such an exit

    constructor (config: map<string, Resources>)
      ensures Valid() && Faithful() && Recorded() && list == [] && fresh(children) && children.lost == {}
      ensures children.sessions == map[] && children.servers == map[]
    {
      displays, this.config, list, ended, givenUp := null, config, [], map[], {};
      children := new Children();
    }

    ghost function Node(k: int): Display?
      reads this`list
    {
      if 0 <= k < |list| then list[k] else null
    }

    ghost predicate Linked()
      reads this`displays, this`list, list`next
    {
      && displays == Node(0)
      && (forall i {:trigger list[i].next} :: 0 <= i < |list| ==> list[i].next == Node(i + 1))
      && (forall i, j :: 0 <= i < j < |list| ==> list[i] != list[j])
    }

    /** Every living process of a listed display is the one the display names: at most one session and
        at most one server each. */
    ghost predicate Tracked()
      reads this`list, list`pid, list`serverPid, children`sessions, children`servers
    {
      && (forall p :: p in children.sessions && children.sessions[p] in list ==> children.sessions[p].pid == p)
      && (forall p :: p in children.servers && children.servers[p] in list ==> children.servers[p].serverPid == p)
    }

    ghost predicate OwnsSession(d: Display)
      reads d`pid, children`sessions
    {
      d.pid != NO_PROCESS ==> d.pid in children.sessions && children.sessions[d.pid] == d
    }

    ghost predicate OwnsServer(d: Display)
      reads d`serverPid, children`servers
    {
      d.serverPid != NO_PROCESS ==> d.serverPid in children.servers && children.servers[d.serverPid] == d
    }

    /** Every process that a listed display names is alive and its own. */
    ghost predicate Owns(d: Display)
      reads d`pid, d`serverPid, children`sessions, children`servers
    {
      OwnsSession(d) && OwnsServer(d)
    }

    /** The listed display a living process was started for. */
    ghost function Owner(p: int): Display?
      reads this`list, children`sessions, children`servers
    {
      if p in children.sessions && children.sessions[p] in list then children.sessions[p]
      else if p in children.servers && children.servers[p] in list then children.servers[p]
      else null
    }

    ghost predicate Faithful()
      reads this`list, list`pid, list`serverPid, children`sessions, children`servers
    {
      forall d :: d in list ==> Owns(d)
    }

    /** The living server of a dying or a reborn display has been told to go. */
    ghost predicate Signalled()
      reads this`list, list`status, children`servers, children`told
    {
      forall p :: p in children.servers && children.servers[p] in list ==>
        children.servers[p].status in {Zombie, Phoenix} ==> p in children.told
    }

    ghost predicate AllSound()
      reads this`list, list`status, list`pid, list`serverPid
    {
      forall d :: d in list ==> d.Sound()
    }

    ghost predicate Valid()
      reads this`displays, this`list, list`next, list`status, list`pid, list`serverPid, children`sessions
      reads children`servers, children`told
    {
      Linked() && AllSound() && Tracked() && Signalled() && children.Apart()
    }

    /** Valid but for the state of `d` itself, whose session may just have gone. */
    ghost predicate ValidBut(d: Display)
      reads this`displays, this`list, list`next, list`status, list`pid, list`serverPid, children
    {
      Linked() && (forall x :: x in list && x != d ==> x.Sound()) && Tracked() && Signalled() && children.Apart()
    }

    // ----- the exits on record

    ghost function Record(d: Display): seq<Ended>
      reads this`ended
    {
      if d in ended then ended[d] else []
    }

    /** A display that is not dying has the count of its record and has not been given up; a display has been
        given up exactly if some exit on its record has not led to a restart. */
    ghost predicate Recorded()
      reads this`ended, this`givenUp, this`list, list`status, list`startTries
    {
      && (forall d :: d in list && d.status != Zombie ==> d.startTries == Tries(Record(d)) && d !in givenUp)
      && (forall d :: d in ended ==> (d in givenUp <==> !Survives(ended[d])))
      && (forall d :: d in givenUp ==> d in ended)
    }

    /** Records only grow. */
    twostate predicate RecordsGrow()
      reads this`ended, this`givenUp
    {
      && (forall d :: d in old(ended) ==> d in ended && old(ended)[d] <= ended[d])
      && (forall d :: d in old(givenUp) ==> d in givenUp)
    }

    /** As long as no exit is put on record, records and counts agree. */
    twostate lemma StillRecorded()
      requires Onward() && ended == old(ended) && givenUp == old(givenUp)
      requires forall d :: d in list ==> if d in old(list) then d.startTries == old(d.startTries) else d.startTries == 0
      ensures old(Recorded()) ==> Recorded()
    {
      NoRecord();
      hide Tries, Survives;
    }

    twostate lemma Members()
      requires Onward()
      ensures forall j :: 0 <= j < |list| ==> list[j] in old(list) || fresh(list[j])
    {
    }

    /** What a record says of its display, whatever has happened between the exits: if it ends with as many
        open failures as were allowed, or an exit asked for the end or was unknown, the display is dying or
        gone, and otherwise it was restarted each time and counts the failures at the end. */
    lemma GivenUpExactly(d: Display)
      requires Recorded()
      ensures d in givenUp <==> !Tolerable(Record(d))
      ensures !Tolerable(Record(d)) ==> d !in list || d.status == Zombie
      ensures d in list && d.status != Zombie ==> d.startTries == Trailing(Record(d))
    {
      GivesUpExactly(Record(d));
    }

    lemma Head()
      requires Valid()
      ensures Linked() && displays == Node(0)
    {
    }

    method Next(d: Display, ghost k: nat) returns (next: Display?)
      requires Valid() && Node(k) == d
      ensures next == Node(k + 1)
      ensures forall i :: 0 <= i < |list| && i != k ==> list[i] != d
    {
      next := d.next;
    }

    /** Nothing removed comes back, and a dying display stays dying. */
    twostate predicate Onward()
      reads this`list, list
    {
      forall d :: d in list ==> fresh(d) || (d in old(list) && (old(d.status) == Zombie ==> d.status == Zombie))
    }

    method FindDisplayByPid(pid: int) returns (d: Display?, ghost k: nat)
      requires Linked()
      ensures d == Node(k)
      ensures forall i :: 0 <= i < k && i < |list| ==> list[i].pid != pid
      ensures d != null ==> d.pid == pid
      ensures d == null ==> forall x :: x in list ==> x.pid != pid
    {
      d, k := displays, 0;
      while d != null && d.pid != pid
        invariant k <= |list| && d == Node(k)
        invariant forall i :: 0 <= i < k ==> list[i].pid != pid
        decreases |list| - k
      {
        d, k := d.next, k + 1;
      }
    }

    method FindDisplayByServerPid(pid: int) returns (d: Display?, ghost k: nat)
      requires Linked()
      ensures d == Node(k)
      ensures forall i :: 0 <= i < k && i < |list| ==> list[i].serverPid != pid
      ensures d != null ==> d.serverPid == pid
      ensures d == null ==> forall x :: x in list ==> x.serverPid != pid
    {
      d, k := displays, 0;
      while d != null && d.serverPid != pid
        invariant k <= |list| && d == Node(k)
        invariant forall i :: 0 <= i < k ==> list[i].serverPid != pid
        decreases |list| - k
      {
        d, k := d.next, k + 1;
      }
    }

    method FindDisplayByName(name: string) returns (d: Display?, ghost k: nat)
      requires Linked()
      ensures d == Node(k) && d == First(list, name)
      ensures d != null ==> d.name == name && forall i :: 0 <= i < k ==> list[i].name != name
      ensures d == null ==> forall x :: x in list ==> x.name != name
    {
      d, k := displays, 0;
      while d != null && d.name != name
        invariant k <= |list| && d == Node(k)
        invariant forall i :: 0 <= i < k ==> list[i].name != name
        decreases |list| - k
      {
        d, k := d.next, k + 1;
      }
      FirstAt(list, name, k);
    }

    method Predecessor(gone: Display, ghost k: nat) returns (p: Display?)
      requires Linked() && Node(k) == gone
      ensures p == Node(k - 1)
    {
      p := null;
      var d := displays;
      ghost var i := 0;
      while d != null && d != gone
        invariant i <= k && d == Node(i) && p == Node(i - 1)
        decreases k - i
      {
        p, d, i := d, d.next, i + 1;
      }
    }

    method Unlink(p: Display?, gone: Display, ghost k: nat)
      requires Linked() && Node(k) == gone && p == Node(k - 1)
      modifies this`displays, this`list, list`next
      ensures Linked() && list == Cut(old(list), k)
    {
      hide Cut;
      CutAt(list, k);
      if p != null {
        p.next := gone.next;
      } else {
        displays := gone.next;
      }
      list := Cut(list, k);
    }

    method RemoveDisplay(gone: Display, ghost k: nat)
      requires Linked() && Node(k) == gone
      modifies this`displays, this`list, list`next
      ensures Linked() && list == Cut(old(list), k)
      ensures gone !in list
      ensures forall x :: x in list ==> x in old(list)
      ensures forall x :: x in old(list) && x != gone ==> x in list
    {
      hide Cut;
      CutMembers(list, k);
      var p := Predecessor(gone, k);
      Unlink(p, gone, k);
    }

    method NewDisplay(name: string, kind: Kind) returns (d: Display)
      requires Valid()
      modifies this`displays, this`list
      ensures Valid() && Onward() && fresh(d) && list == [d] + old(list)
      ensures d.name == name && d.kind == kind && d.status == NotRunning && d.pid == NO_PROCESS
      ensures d.serverPid == NO_PROCESS && d.state == NewEntry && d.startTries == 0
      ensures old(Faithful()) ==> Faithful()
    {
      hide Manager.Linked;
      d := Prepend(name, kind);
    }

    method Prepend(name: string, kind: Kind) returns (d: Display)
      requires Linked()
      modifies this`displays, this`list
      ensures Linked() && fresh(d) && list == [d] + old(list)
      ensures d.name == name && d.kind == kind && d.status == NotRunning && d.pid == NO_PROCESS
      ensures d.serverPid == NO_PROCESS && d.state == NewEntry && d.startTries == 0
    {
      d := new Display(name, kind, displays);
      displays := d;
      list := [d] + list;
    }

    // ----- the bookkeeping, as a value

    ghost function Books(): Book
      reads this`list, list`status, list`pid, list`serverPid, children`sessions, children`servers
    {
      Book(map d | d in list :: d.status, map d | d in list :: d.pid, map d | d in list :: d.serverPid,
           children.sessions, children.servers)
    }

    lemma FaithfulBooks()
      ensures Faithful() <==> FaithfulBook(Books())
    {
      if FaithfulBook(Books()) {
        forall d | d in list ensures Owns(d) {
          assert OwnsIn(Books(), d);
        }
      }
    }

    /** Of the listed displays only `d` has changed. */
    twostate predicate OnlyOf(d: Display)
      reads this`list, list`status, list`pid, list`serverPid
    {
      && d in list && list == old(list)
      && forall x :: x in list && x != d ==>
        x.status == old(x.status) && x.pid == old(x.pid) && x.serverPid == old(x.serverPid)
    }

    lemma Listed(d: Display, k: nat)
      requires Node(k) == d
      ensures d in list
    {
    }

    twostate lemma StopBooks(d: Display)
      requires OnlyOf(d) && d.pid == old(d.pid) && d.serverPid == old(d.serverPid) != NO_PROCESS && d.status == Zombie
      requires children.sessions == old(children.sessions) && children.servers == old(children.servers)
      ensures Stopped(old(Books()), d, Books())
    {
      assert Books().status == old(Books()).status[d := Zombie];
    }

    twostate lemma SessionBooks(d: Display)
      requires OnlyOf(d) && d.status == Running && d.serverPid == old(d.serverPid)
      requires d.pid > 0 && d.pid !in old(children.sessions) && d.pid !in old(children.servers)
      requires children.sessions == old(children.sessions)[d.pid := d] && children.servers == old(children.servers)
      ensures SessionStart(old(Books()), d, Books())
    {
      assert Books().status == old(Books()).status[d := Running];
      assert Books().pid == old(Books()).pid[d := d.pid];
    }

    twostate lemma ServerBooks(d: Display, new up: bool, new reaped: set<int>)
      requires OnlyOf(d) && d.status == old(d.status) && d.pid == old(d.pid)
      requires Replaced(d, up, reaped)
      ensures ServerStart(old(Books()), d, Books(), up)
    {
      assert Books().server == old(Books()).server[d := d.serverPid];
      assert StartedWith(old(Books()), d, Books(), up, reaped);
    }

    /** From running to dying, or off the list. */
    method StopDisplay(d: Display, ghost k: nat)
      requires ValidBut(d) && Node(k) == d
      modifies this`displays, this`list, list`next, d`status, children`told
      ensures Valid() && Onward()
      ensures old(Faithful()) ==> Faithful()
      ensures d.serverPid != NO_PROCESS ==> d.status == Zombie && list == old(list) && Stopped(old(Books()), d, Books())
      ensures d.serverPid == NO_PROCESS ==> d.status == old(d.status) && list == Cut(old(list), k) && d !in list
      ensures forall x :: x in list ==> x in old(list)
      ensures forall x :: x in old(list) && x != d ==> x in list
      ensures children.told == old(children.told) + Named(d.pid) + Named(d.serverPid)
    {
      hide *;
      Listed(d, k);
      TakeDown(d, k);
      if d.serverPid != NO_PROCESS {
        StopBooks(d);
      }
    }

    method TakeDown(d: Display, ghost k: nat)
      requires ValidBut(d) && Node(k) == d
      modifies this`displays, this`list, list`next, d`status, children`told
      ensures Valid() && Onward()
      ensures old(Faithful()) ==> Faithful()
      ensures d.serverPid != NO_PROCESS ==> d.status == Zombie && list == old(list) && OnlyOf(d)
      ensures d.serverPid == NO_PROCESS ==> d.status == old(d.status) && list == Cut(old(list), k) && d !in list
      ensures forall x :: x in list ==> x in old(list)
      ensures forall x :: x in old(list) && x != d ==> x in list
      ensures children.told == old(children.told) + Named(d.pid) + Named(d.serverPid)
    {
      hide Cut, Manager.Linked, Manager.Node;
      Listed(d, k);
      if d.serverPid != NO_PROCESS {
        d.status := Zombie;
      }
      if d.pid != NO_PROCESS {
        children.Terminate(d.pid);
      }
      if d.serverPid != NO_PROCESS {
        children.Terminate(d.serverPid);
      } else {
        RemoveDisplay(d, k);
      }
    }

    lemma JustStop(d: Display)
      requires Valid()
      ensures ValidBut(d)
    {
    }

    /** From running to waiting for a new server, or to rest. */
    method RestartDisplay(d: Display, force: bool)
      requires ValidBut(d) && d in list && d.pid == NO_PROCESS && d.status != Zombie
      modifies d`status, children`told
      ensures Valid() && Onward()
      ensures if d.serverPid != NO_PROCESS && (force || d.resources.terminateServer)
              then d.status == Phoenix && children.told == old(children.told) + {d.serverPid}
              else d.status == NotRunning && children.told == old(children.told)
    {
      hide Manager.Linked, Manager.Node;
      if d.serverPid != NO_PROCESS && (force || d.resources.terminateServer) {
        children.Terminate(d.serverPid);
        d.status := Phoenix;
      } else {
        d.status := NotRunning;
      }
    }

    /** What the configuration has for the display, or else what is built in, replaces what was read before. */
    method LoadServerResources(d: Display)
      modifies d`resources
      ensures d.name in config ==> d.resources == config[d.name]
      ensures d.name !in config ==> d.resources == Resources(4, false, 1)
    {
      d.resources := if d.name in config then config[d.name] else BUILT_IN;
    }

    /** What starting a server of `d` leaves of the processes, when those in `reaped` have exited
        meanwhile. */
    twostate predicate Replaced(d: Display, up: bool, reaped: set<int>)
      reads this, d, children
    {
      && children.sessions == old(children.sessions) - reaped
      && (up ==> d.serverPid > 0 && d.serverPid !in children.sessions && d.serverPid !in old(children.servers) - reaped)
      && (up ==> children.servers == (old(children.servers) - reaped)[d.serverPid := d])
      && (!up ==> children.servers == old(children.servers) - reaped)
    }

    method StartServerOnce(d: Display) returns (up: bool, ghost reaped: set<int>)
      requires children.Apart()
      requires forall p :: p in children.servers ==> children.servers[p] != d
      modifies d`serverPid, children
      ensures children.Apart() && children.OnlyNewServersOf(d) && Replaced(d, up, reaped)
      ensures forall p :: p in children.servers && children.servers[p] == d ==> up && p == d.serverPid
      ensures children.setbacks == old(children.setbacks) + if up then 0 else 1
    {
      var pid := children.Fork();
      if pid == NO_PROCESS {
        return false, {};
      }
      children.Born(pid);
      children.servers := children.servers[pid := d];
      d.serverPid := pid;
      var dead;
      dead, reaped := children.ServerPause(pid);
      up := !dead;
    }

    /** A limit of 0 stands for any number of attempts. */
    method StartServer(d: Display) returns (up: bool, ghost reaped: set<int>)
      requires children.Apart()
      requires forall p :: p in children.servers ==> children.servers[p] != d
      modifies d`serverPid, children
      ensures children.Apart() && children.OnlyNewServersOf(d) && Replaced(d, up, reaped)
      ensures forall p :: p in children.servers && children.servers[p] == d ==> up && p == d.serverPid
      ensures children.setbacks >= old(children.setbacks)
      ensures !up ==> children.setbacks - old(children.setbacks) >= Attempts(d.resources)
    {
      var limit := d.resources.serverAttempts;
      if limit == 0 {
        limit := *;
        limit := AtLeastOne(limit);
      }
      var i := 0;
      up, reaped := false, {};
      while !up && i < limit
        invariant children.Apart() && children.OnlyNewServersOf(d) && Replaced(d, up, reaped)
        invariant forall p :: p in children.servers && children.servers[p] == d ==> up && p == d.serverPid
        invariant children.setbacks == old(children.setbacks) + if up then i - 1 else i
        invariant 0 <= i && (up ==> i > 0)
        decreases limit - i, !up
      {
        ghost var more;
        up, more := StartServerOnce(d);
        i, reaped := i + 1, reaped + more;
      }
    }

    /** No other listed display names a process. */
    ghost predicate Alone(d: Display)
      reads this`list, list`pid, list`serverPid
    {
      forall x :: x in list && x != d ==> x.pid == NO_PROCESS && x.serverPid == NO_PROCESS
    }

    method NewServer(d: Display) returns (up: bool)
      requires Valid() && d in list && d.pid == d.serverPid == NO_PROCESS
      modifies d`serverPid, children
      ensures Valid() && (up ==> d.serverPid != NO_PROCESS)
      ensures children.setbacks - old(children.setbacks) >= if up then 0 else Attempts(d.resources)
      ensures children.lost == {} ==> old(children.lost) == {}
      ensures old(Faithful()) && (children.lost == {} || Alone(d)) ==>
        forall x :: x in list && (x != d || up) ==> Owns(x)
      ensures ServerStart(old(Books()), d, Books(), up)
    {
      hide ServerStart, Manager.Linked, Manager.Node, Manager.Books, Manager.Owns;
      ghost var reaped;
      up, reaped := StartServer(d);
      ServerBooks(d, up, reaped);
      StillOwned(d, up, reaped);
    }

    /** Starting a server of `d` takes no other display's process as long as no exit is swallowed. */
    twostate lemma StillOwned(d: Display, new up: bool, new reaped: set<int>)
      requires OnlyOf(d) && d.pid == old(d.pid) == NO_PROCESS && old(d.serverPid) == NO_PROCESS
      requires Replaced(d, up, reaped)
      requires children.OnlyNewServersOf(d)
      ensures old(Faithful()) && (children.lost == {} || Alone(d)) ==>
        forall x :: x in list && (x != d || up) ==> Owns(x)
    {
      if old(Faithful()) && (children.lost == {} || Alone(d)) {
        forall x | x in list && (x != d || up) ensures Owns(x) {
          assert old(Owns(x));
        }
      }
    }

    method ProvideServer(d: Display) returns (up: bool)
      requires Valid() && d in list && d.status == NotRunning
      modifies d`serverPid, d`resources, children
      ensures Valid()
      ensures d.resources == if d.name in config then config[d.name] else BUILT_IN
      ensures up && d.kind.local ==> d.serverPid != NO_PROCESS
      ensures !up ==> d.kind.local && children.setbacks - old(children.setbacks) >= Attempts(d.resources)
      ensures children.setbacks >= old(children.setbacks)
      ensures children.lost == {} ==> old(children.lost) == {}
      ensures old(Faithful()) && (children.lost == {} || Alone(d)) ==>
        forall x :: x in list && (x != d || up) ==> Owns(x)
      ensures if d.kind.local && old(d.serverPid) == NO_PROCESS then ServerStart(old(Books()), d, Books(), up)
              else Books() == old(Books())
    {
      hide ServerStart, Manager.Linked, Manager.Node, Manager.Books, Manager.Owns;
      LoadServerResources(d);
      up := true;
      if d.kind.local && d.serverPid == NO_PROCESS {
        up := NewServer(d);
      }
    }

    method StartSession(d: Display)
      requires Valid() && d in list && d.status == NotRunning
      modifies d`pid, d`status, children`sessions, children`told, children`setbacks
      ensures Valid() && d.status in {Running, NotRunning}
      ensures children.setbacks == old(children.setbacks) + if d.status == Running then 0 else 1
      ensures if d.status == Running then SessionStart(old(Books()), d, Books()) else Books() == old(Books())
      ensures old(Faithful()) ==> Faithful()
    {
      hide SessionStart, Manager.Valid, Manager.Books, Manager.Faithful;
      Launch(d);
      if d.status == Running {
        SessionBooks(d);
      }
    }

    method Launch(d: Display)
      requires Valid() && d in list && d.status == NotRunning
      modifies d`pid, d`status, children`sessions, children`told, children`setbacks
      ensures Valid() && d.status in {Running, NotRunning}
      ensures children.setbacks == old(children.setbacks) + if d.status == Running then 0 else 1
      ensures if d.status == Running
              then d.pid > 0 && d.pid !in old(children.sessions) && d.pid !in old(children.servers)
                && children.sessions == old(children.sessions)[d.pid := d]
              else children.sessions == old(children.sessions) && d.pid == old(d.pid)
      ensures old(Faithful()) ==> Faithful()
    {
      hide Manager.Linked, Manager.Node;
      NoSession(d);
      var pid := children.Fork();
      if pid != NO_PROCESS {
        children.Born(pid);
        children.sessions := children.sessions[pid := d];
        d.pid, d.status := pid, Running;
      }
    }

    lemma NoSession(d: Display)
      requires Valid() && d in list && d.status == NotRunning
      ensures d.pid == NO_PROCESS && forall p :: p in children.sessions ==> children.sessions[p] != d
    {
      assert d.Sound();
    }

    method RemoveListed(d: Display, ghost k: nat)
      requires Valid() && Node(k) == d
      modifies this`displays, this`list, list`next
      ensures Valid() && Onward() && list == Cut(old(list), k) && d !in list
      ensures old(forall x :: x in list && x != d ==> Owns(x)) ==> Faithful()
    {
      hide Cut, Manager.Node, Manager.Linked, Manager.Owns;
      RemoveDisplay(d, k);
    }

    lemma AloneIfOnly(d: Display, k: nat)
      requires Node(k) == d
      ensures d in list && (|list| <= 1 ==> Alone(d))
    {
    }

    /** A display at rest gets a session, preceded by a server where it needs one; a display whose server
        will not start leaves the list. */
    method StartDisplay(d: Display, ghost k: nat)
      requires Valid() && Node(k) == d && d.status == NotRunning
      modifies this`displays, this`list, list`next, d`serverPid, d`resources, d`pid, d`status, children
      ensures Valid() && Onward()
      ensures d.resources == if d.name in config then config[d.name] else BUILT_IN
      ensures list == old(list) || (list == Cut(old(list), k) && d !in list && d.kind.local)
      ensures d in list ==> d.status in {Running, NotRunning} && (d.kind.local ==> d.serverPid != NO_PROCESS)
      ensures d in list && d.status == NotRunning ==> children.setbacks > old(children.setbacks)
      ensures d !in list ==> children.setbacks - old(children.setbacks) >= Attempts(d.resources)
      ensures children.setbacks >= old(children.setbacks)
      ensures children.lost == {} ==> old(children.lost) == {}
      ensures old(Faithful()) && (children.lost == {} || |old(list)| <= 1) ==> Faithful()
    {
      hide Cut, Manager.Node, Manager.Alone, Manager.Linked, Manager.AllSound, Manager.Tracked, Manager.Signalled;
      hide Manager.Owns, Children.Apart;
      Listed(d, k);
      var up := ProvideServer(d);
      AloneIfOnly(d, k);
      if up {
        StartSession(d);
      } else {
        RemoveListed(d, k);
      }
    }

    method CheckDisplayStatus(d: Display, ghost k: nat)
      requires Valid() && Node(k) == d
      modifies this`displays, this`list, list`next, d`serverPid, d`resources, d`pid, d`status, d`state, children
      ensures Valid() && Onward()
      ensures list == old(list) || (list == Cut(old(list), k) && d !in list)
      ensures d in list ==> Settled(d, old(children.setbacks))
      ensures Spared(d, Glimpse(old(d.status), old(d.state), old(d.serverPid)), old(children.setbacks))
      ensures children.setbacks >= old(children.setbacks)
      ensures old(d.state) == MissingEntry <==> d.state == MissingEntry
      ensures d.kind.fromFile && d.state != MissingEntry && old(d.status) == NotRunning ==>
        d.resources == if d.name in config then config[d.name] else BUILT_IN
      ensures children.lost == {} ==> old(children.lost) == {}
      ensures old(Faithful()) && (children.lost == {} || |old(list)| <= 1) ==> Faithful()
    {
      hide Cut, Manager.Linked, Manager.Tracked, Manager.Signalled, Manager.Faithful, Children.Apart;
      if d.kind.fromFile {
        match d.state {
          case MissingEntry =>
            JustStop(d);
            StopDisplay(d, k);
          case _ =>
            d.state := OldEntry;
            if d.status == NotRunning {
              StartDisplay(d, k);
            }
        }
      }
    }

    /** What a walk over the list leaves of a display of the servers file: it is dying, or it is an old
        entry that is at rest only if something has failed since. */
    ghost predicate Settled(d: Display, since: nat)
      reads d`kind, d`state, d`status, children`setbacks
    {
      d.kind.fromFile ==>
        if d.state == OldEntry then d.status == NotRunning ==> children.setbacks > since
        else d.state == MissingEntry && d.status == Zombie
    }

    /** What a walk does to a display whose entry is not missing: dying it goes on dying, else it is not
        dying now, and it leaves the list only if something has failed since. */
    ghost predicate Spared(d: Display, was: Glimpse, since: nat)
      reads this`list, d`kind, d`status, d`serverPid, children`setbacks
    {
      was.state != MissingEntry || !d.kind.fromFile ==>
        && (d !in list ==> children.setbacks > since && was.status == NotRunning)
        && (d in list ==> (d.status == Zombie <==> was.status == Zombie))
        && (was.status != NotRunning ==> d.serverPid == was.server)
    }

    ghost function Glimpses(): map<Display, Glimpse>
      reads this`list, list`status, list`state, list`serverPid
    {
      map d | d in list :: Glimpse(d.status, d.state, d.serverPid)
    }

    /** The walk has come to position `i` of what is left of the list. */
    ghost predicate Walked(w: Walk, i: nat)
      reads this`list, w.was.Keys, children`setbacks
    {
      && i <= |list| && children.setbacks >= w.since
      && (forall x :: x in list ==> x in w.was)
      && (forall j :: 0 <= j < i ==> list[j] in w.done && Settled(list[j], w.since))
      && (forall j :: i <= j < |list| ==> list[j] !in w.done)
      && (forall x :: x in w.was ==>
           if x in w.done then Spared(x, w.was[x], w.since)
           else x in list && Glimpse(x.status, x.state, x.serverPid) == w.was[x])
      && (forall x :: x in w.was ==> (w.was[x].state == MissingEntry <==> x.state == MissingEntry))
    }

    /** Of the displays in `among` only `d` has been touched. */
    twostate predicate Untouched(new d: Display, among: set<Display>)
      reads among
    {
      forall x :: x in among && x != d ==>
        x.status == old(x.status) && x.state == old(x.state) && x.serverPid == old(x.serverPid) && x.kind == old(x.kind)
    }

    twostate lemma WalkedMore(w: Walk, new i: nat)
      requires old(Walked(w, i)) && i < |old(list)| && children.setbacks >= old(children.setbacks)
      requires forall j :: 0 <= j < |old(list)| && j != i ==> old(list)[j] != old(list)[i]
      requires var d := old(list)[i];
        && (list == old(list) || (list == Cut(old(list), i) && d !in list))
        && Untouched(d, w.was.Keys) && (old(d.state) == MissingEntry <==> d.state == MissingEntry)
        && (d in list ==> Settled(d, old(children.setbacks)))
        && Spared(d, Glimpse(old(d.status), old(d.state), old(d.serverPid)), old(children.setbacks))
      ensures Walked(w.(done := w.done + {old(list)[i]}), if old(list)[i] in list then i + 1 else i)
    {
      assert forall x :: x in old(list) && x != old(list)[i] ==> x in list by {
        if list != old(list) {
          assert forall j :: 0 <= j < |old(list)| && j != i ==> old(list)[j] == list[if j < i then j else j - 1];
        }
      }
    }

    twostate lemma NodeAfter(i: nat)
      requires i < |old(list)|
      ensures list == old(list) ==> Node(i + 1) == old(Node(i + 1))
      ensures list == Cut(old(list), i) ==> Node(i) == old(Node(i + 1))
    {
    }

    method Visit(d: Display, ghost i: nat, ghost w: Walk)
      requires Valid() && Node(i) == d && Walked(w, i)
      modifies this`displays, this`list, list`next, d`serverPid, d`resources, d`pid, d`status, d`state, children
      ensures Valid() && Onward()
      ensures list == old(list) || (list == Cut(old(list), i) && d !in list)
      ensures forall x :: x in list ==> x in old(list)
      ensures Walked(w.(done := w.done + {d}), if d in list then i + 1 else i)
      ensures Node(if d in list then i + 1 else i) == old(Node(i + 1))
      ensures children.lost == {} ==> old(children.lost) == {}
      ensures old(Faithful()) && (children.lost == {} || |old(list)| <= 1) ==> Faithful()
    {
      hide Cut, Manager.Valid, Manager.Faithful, Manager.Node, Manager.Onward, Manager.Walked, Manager.Settled;
      hide Manager.Spared;
      OnceListed(d, i);
      CheckDisplayStatus(d, i);
      WalkedMore(w, i);
      CutWithin(old(list), i);
      NodeAfter(i);
    }

    lemma AtEnd(i: nat)
      requires Node(i) == null
      ensures |list| <= i
    {
    }

    lemma OnceListed(d: Display, k: nat)
      requires Valid() && Node(k) == d
      ensures k < |list| && list[k] == d && forall i :: 0 <= i < |list| && i != k ==> list[i] != d
    {
    }

    method WalkDisplays()
      requires Valid()
      modifies this`displays, this`list, list`next, list`serverPid, list`resources, list`pid, list`status, list`state
      modifies children
      ensures Valid() && Onward()
      ensures |list| <= |old(list)| && forall x :: x in list ==> x in old(list) && Settled(x, old(children.setbacks))
      ensures forall x :: x in old(list) ==> (old(x.state) == MissingEntry <==> x.state == MissingEntry)
      ensures forall x :: x in old(list) ==> Spared(x, old(Glimpses())[x], old(children.setbacks))
      ensures children.setbacks >= old(children.setbacks)
      ensures children.lost == {} ==> old(children.lost) == {}
      ensures old(Faithful()) && (children.lost == {} || |old(list)| <= 1) ==> Faithful()
    {
      hide Cut, Manager.Valid, Manager.Faithful, Manager.Settled, Manager.Spared, Manager.Walked, Manager.Node;
      var d := displays;
      ghost var i: nat, w := 0, Walk(Glimpses(), {}, children.setbacks);
      Head();
      WalkBegins();
      while d != null
        invariant Valid() && Onward() && d == Node(i)
        invariant |list| <= |old(list)| && Walked(w, i)
        invariant w.was == old(Glimpses()) && w.since == old(children.setbacks)
        invariant forall x :: x in list ==> x in old(list)
        invariant children.lost == {} ==> old(children.lost) == {}
        invariant old(Faithful()) && (children.lost == {} || |old(list)| <= 1) ==> Faithful()
        decreases |list| - i
      {
        var next := Next(d, i);
        assert forall j :: 0 <= j < |list| ==> list[j] in old(list);
        OnceListed(d, i);
        Visit(d, i, w);
        w := w.(done := w.done + {d});
        if d in list {
          i := i + 1;
        }
        d := next;
      }
      AtEnd(i);
      WalkEnds(w, i);
    }

    lemma WalkBegins()
      ensures Walked(Walk(Glimpses(), {}, children.setbacks), 0)
    {
    }

    lemma WalkEnds(w: Walk, i: nat)
      requires Walked(w, i) && |list| <= i
      ensures forall x :: x in list ==> Settled(x, w.since)
      ensures forall x :: x in w.was ==> Spared(x, w.was[x], w.since)
      ensures forall x :: x in w.was ==> (w.was[x].state == MissingEntry <==> x.state == MissingEntry)
      ensures children.setbacks >= w.since
    {
      hide Manager.Settled, Manager.Spared;
    }

    /** The walk, which leaves the records alone. */
    method StartDisplays()
      requires Valid()
      modifies this`displays, this`list, list`next, list`serverPid, list`resources, list`pid, list`status, list`state
      modifies children
      ensures Valid() && Onward()
      ensures |list| <= |old(list)| && forall x :: x in list ==> x in old(list) && Settled(x, old(children.setbacks))
      ensures forall x :: x in old(list) ==> (old(x.state) == MissingEntry <==> x.state == MissingEntry)
      ensures forall x :: x in old(list) ==> Spared(x, old(Glimpses())[x], old(children.setbacks))
      ensures children.setbacks >= old(children.setbacks)
      ensures children.lost == {} ==> old(children.lost) == {}
      ensures old(Faithful()) && (children.lost == {} || |old(list)| <= 1) ==> Faithful()
      ensures old(Recorded()) ==> Recorded()
    {
      hide *;
      WalkDisplays();
      StillRecorded();
    }

    /** Reads the exit code; failures to open the display are counted, everything else but the end begins
        the count again. */
    method Verdict(d: Display, code: Code) returns (f: Fate)
      modifies d`startTries
      ensures f == FateOf(d.kind, d.status == Zombie, old(d.startTries), d.resources.startAttempts, code)
      ensures d.startTries == TriesAfter(d.kind, d.status == Zombie, old(d.startTries), code)
      ensures f == Stop <==> EndsWith(d.kind, d.status == Zombie, old(d.startTries), d.resources.startAttempts, code)
      ensures f.Restart? ==> (f.force <==> code in {OpenFailed, Reserver, Sigterm})
    {
      match code {
        case Unmanage | OtherCode =>
          f := Stop;
        case ObeySess =>
          d.startTries := 0;
          f := if !d.kind.permanent || d.status == Zombie then Stop else Restart(false);
        case OpenFailed =>
          var giveUp := !d.kind.fromFile || d.status == Zombie;
          if !giveUp {
            d.startTries := d.startTries + 1;
            giveUp := d.startTries >= d.resources.startAttempts;
          }
          f := if giveUp then Stop else Restart(true);
        case Reserver | Sigterm =>
          d.startTries := 0;
          f := if !d.kind.fromFile || d.status == Zombie then Stop else Restart(true);
        case Remanage =>
          d.startTries := 0;
          f := if !d.kind.fromFile || d.status == Zombie then Stop else Restart(false);
      }
    }

    lemma NoZombieRestarts(kind: Kind, zombie: bool, tries: int, attempts: int, code: Code)
      requires FateOf(kind, zombie, tries, attempts, code).Restart?
      ensures !zombie
    {
    }

    method ForgetSession(d: Display)
      requires Valid() && d in list
      requires forall p :: p in children.sessions ==> children.sessions[p] != d
      modifies d`pid
      ensures ValidBut(d) && d.pid == NO_PROCESS
    {
      hide Manager.Linked, Manager.Node, Manager.Signalled, Children.Apart;
      d.pid := NO_PROCESS;
    }

    /** The exit of a session is put on record, unless the display was dying. */
    twostate predicate Ends(d: Display, new status: Status, new tries: int, new code: Code)
      reads this`ended, this`givenUp, d`kind, d`resources
    {
      if status == Zombie then ended == old(ended) && givenUp == old(givenUp)
      else
        && ended == old(ended)[d := old(Record(d)) + [Ended(code, d.kind, d.resources.startAttempts)]]
        && givenUp == old(givenUp) +
          if FateOf(d.kind, false, tries, d.resources.startAttempts, code) == Stop then {d} else {}
    }

    ghost method PutOnRecord(d: Display, code: Code)
      modifies this`ended, this`givenUp
      ensures Ends(d, d.status, d.startTries, code)
    {
      if d.status != Zombie {
        ended := ended[d := Record(d) + [Ended(code, d.kind, d.resources.startAttempts)]];
        if FateOf(d.kind, false, d.startTries, d.resources.startAttempts, code) == Stop {
          givenUp := givenUp + {d};
        }
      }
    }

    /** What follows for `d` and its server: at the end the display is dying and its server told to go, or it is
        off the list; otherwise it waits to be reborn, and its server is told to go, if there is one that has to
        go, and else it is at rest and no process is told. */
    twostate predicate Sequel(d: Display, new end: bool, new afresh: bool)
      reads this`list, d`status, d`serverPid, children`told
    {
      if d.serverPid == NO_PROCESS then
        children.told == old(children.told) && if end then d !in list else list == old(list) && d.status == NotRunning
      else
        && list == old(list)
        && d.status == (if end then Zombie else if afresh then Phoenix else NotRunning)
        && children.told == if end || afresh then old(children.told) + {d.serverPid} else old(children.told)
    }

    /** The session of `d` has gone. */
    method SessionEnded(d: Display, ghost k: nat, code: Code)
      requires Valid() && Node(k) == d && d.pid != NO_PROCESS
      requires forall p :: p in children.sessions ==> children.sessions[p] != d
      modifies this`displays, this`list, list`next, d`pid, d`status, d`startTries, children`told
      modifies this`ended, this`givenUp
      ensures Valid() && Onward() && d.pid == NO_PROCESS
      ensures Ends(d, old(d.status), old(d.startTries), code)
      ensures forall x :: x in list ==> x in old(list)
      ensures forall x :: x in old(list) && x != d ==> x in list
      ensures d.startTries == TriesAfter(d.kind, old(d.status) == Zombie, old(d.startTries), code)
      ensures Sequel(d, EndsWith(d.kind, old(d.status) == Zombie, old(d.startTries), d.resources.startAttempts, code),
                     d.resources.terminateServer || code in {OpenFailed, Reserver, Sigterm})
      ensures list == old(list) || list == Cut(old(list), k)
      ensures (forall x :: x in list && x != d ==> Owns(x)) && Owns(d) ==> Faithful()
    {
      hide Cut, FateOf, TriesAfter, Manager.Valid, Manager.ValidBut, Manager.Node, Manager.Faithful, Manager.Owns;
      hide Manager.Ends, Manager.Books, Stopped, Named, EndsWith;
      Listed(d, k);
      PutOnRecord(d, code);
      ForgetSession(d);
      NamedIs(d.serverPid);
      NamedIs(NO_PROCESS);
      var fate := Verdict(d, code);
      match fate {
        case Stop => StopDisplay(d, k);
        case Restart(force) =>
          NoZombieRestarts(d.kind, d.status == Zombie, old(d.startTries), d.resources.startAttempts, code);
          RestartDisplay(d, force);
      }
      AllOwn(d);
    }

    lemma NamedIs(pid: int)
      ensures Named(pid) == if pid == NO_PROCESS then {} else {pid}
    {
    }

    lemma AllOwn(d: Display)
      ensures (forall x :: x in list && x != d ==> Owns(x)) && Owns(d) ==> Faithful()
    {
    }

    /** The server of `d` has gone. */
    method ServerEnded(d: Display, ghost k: nat)
      requires Valid() && Node(k) == d && d.serverPid != NO_PROCESS
      requires forall p :: p in children.servers ==> children.servers[p] != d
      modifies this`displays, this`list, list`next, d`serverPid, d`status, children`told
      ensures Valid() && Onward() && d.serverPid == NO_PROCESS
      ensures forall x :: x in list ==> x in old(list)
      ensures forall x :: x in old(list) && x != d ==> x in list
      ensures if old(d.status) == Zombie then list == Cut(old(list), k) && d !in list else list == old(list)
      ensures old(d.status) == Phoenix ==> d.status == NotRunning
      ensures old(d.status) != Phoenix ==> d.status == old(d.status)
      ensures children.told == old(children.told) + (if old(d.status) == Running then {d.pid} else {})
      ensures (forall x :: x in list && x != d ==> Owns(x)) && Owns(d) ==> Faithful()
    {
      hide Cut, Manager.Linked, Children.Apart;
      d.serverPid := NO_PROCESS;
      match d.status {
        case Zombie =>
          RemoveDisplay(d, k);
        case Phoenix =>
          d.status := NotRunning;
        case Running =>
          if d.pid != NO_PROCESS {
            children.Terminate(d.pid);
          }
        case NotRunning =>
      }
    }

    /** Under faithful bookkeeping the display that names a process is the one it was started for. */
    lemma OwnerNames(pid: int)
      requires Valid() && pid != NO_PROCESS
      ensures Faithful() ==> forall x :: x in list && x.pid == pid ==> Owner(pid) == x && pid in children.sessions
      ensures Faithful() ==> forall x :: x in list && x.serverPid == pid ==> Owner(pid) == x && pid in children.servers
      ensures Owner(pid) != null ==> Owner(pid) in list
      ensures Owner(pid) != null && pid in children.sessions ==> Owner(pid).pid == pid
      ensures Owner(pid) != null && pid in children.servers ==> Owner(pid).serverPid == pid
      ensures !(pid in children.sessions && pid in children.servers)
    {
    }

    lemma NoSuchProcess()
      requires Valid()
      ensures NO_PROCESS !in children.sessions && NO_PROCESS !in children.servers
    {
    }

    /** A process has exited: the bookkeeping is faithful but for the display `owner` that named it. */
    ghost predicate Bereft(owner: Display?, pid: int, session: bool)
      reads this`list, list`pid, list`serverPid, children`sessions, children`servers
    {
      && (forall x :: x in list && x != owner ==> Owns(x) && x.pid != pid && x.serverPid != pid)
      && (owner != null ==> owner in list)
      && (owner != null && session ==> owner.pid == pid && OwnsServer(owner))
      && (owner != null && !session ==> owner.pid != pid && owner.serverPid == pid && OwnsSession(owner))
    }

    method WaitPid(pid: int)
      requires Valid() && (pid in children.sessions || pid in children.servers)
      modifies children`sessions, children`servers
      ensures Valid()
      ensures children.sessions == old(children.sessions) - {pid} && children.servers == old(children.servers) - {pid}
      ensures old(Faithful()) ==> Bereft(old(Owner(pid)), pid, pid in old(children.sessions))
      ensures forall p :: p in children.sessions && children.sessions[p] in list ==> children.sessions[p].pid != pid
      ensures forall p :: p in children.servers && children.servers[p] in list ==> children.servers[p].serverPid != pid
    {
      hide Manager.Linked, Manager.Node, Manager.AllSound, Manager.Owner;
      NoSuchProcess();
      OwnerNames(pid);
      children.sessions := children.sessions - {pid};
      children.servers := children.servers - {pid};
    }

    twostate lemma BuriedFaithful(d: Display)
      requires children.sessions == old(children.sessions) && children.servers == old(children.servers)
      requires forall x :: x in list ==> x in old(list)
      requires forall x :: x in list && x != d ==> x.pid == old(x.pid) && x.serverPid == old(x.serverPid)
      requires forall x :: x in old(list) && x != d ==> old(Owns(x))
      requires (d.pid == NO_PROCESS && d.serverPid == old(d.serverPid) && old(OwnsServer(d)))
        || (d.serverPid == NO_PROCESS && d.pid == old(d.pid) && old(OwnsSession(d)))
      ensures Faithful()
    {
    }

    /** The displays but `d` are as they were. */
    twostate predicate OthersKept(d: Display?)
      reads this`list, list`status, list`pid, list`serverPid, list`startTries
    {
      forall x :: x in old(list) && x != d ==>
        x in list && x.status == old(x.status) && x.startTries == old(x.startTries)
        && x.pid == old(x.pid) && x.serverPid == old(x.serverPid)
    }

    /** What becomes of `d` when its session has gone. */
    twostate predicate Widowed(d: Display, new code: Code)
      reads this`list, d, this`ended, this`givenUp, children`told
    {
      && d.pid == NO_PROCESS && d.serverPid == old(d.serverPid) && Ends(d, old(d.status), old(d.startTries), code)
      && d.startTries == TriesAfter(d.kind, old(d.status) == Zombie, old(d.startTries), code)
      && Sequel(d, EndsWith(d.kind, old(d.status) == Zombie, old(d.startTries), d.resources.startAttempts, code),
                d.resources.terminateServer || code in {OpenFailed, Reserver, Sigterm})
    }

    /** What becomes of `d` when its server has gone. */
    twostate predicate Bereaved(d: Display)
      reads this`list, d, this`ended, this`givenUp, children`told
    {
      && d.serverPid == NO_PROCESS && d.pid == old(d.pid) && d.startTries == old(d.startTries)
      && ended == old(ended) && givenUp == old(givenUp)
      && (if old(d.status) == Zombie then d !in list else list == old(list))
      && d.status == (if old(d.status) == Phoenix then NotRunning else old(d.status))
      && (old(d.status) == Running ==> d.pid in children.told)
    }

    method BurySession(d: Display, ghost k: nat, pid: int, code: Code)
      requires Valid() && Node(k) == d && d in list && d.pid == pid
      requires pid in children.sessions || pid in children.servers
      modifies this`displays, this`list, list`next, d`pid, d`status, d`startTries
      modifies children`sessions, children`servers, children`told, this`ended, this`givenUp
      ensures Valid() && Onward() && Widowed(d, code) && OthersKept(d)
      ensures |list| <= |old(list)| && forall x :: x in list ==> x in old(list)
      ensures children.sessions == old(children.sessions) - {pid} && children.servers == old(children.servers) - {pid}
      ensures old(Faithful()) ==> Faithful() && d == old(Owner(pid)) && pid in old(children.sessions)
    {
      hide Cut, FateOf, TriesAfter, EndsWith, Manager.Valid, Manager.Node, Manager.Faithful, Manager.Owner;
      hide Manager.Owns, Manager.OwnsServer, Manager.OwnsSession, Manager.Record;
      NoSuchProcess();
      OwnerNames(pid);
      WaitPid(pid);
      label Waited:
      SessionEnded(d, k, code);
      if old(Faithful()) {
        BuriedFaithful@Waited(d);
      }
    }

    method BuryServer(d: Display, ghost k: nat, pid: int)
      requires Valid() && Node(k) == d && d in list && d.serverPid == pid && (forall x :: x in list ==> x.pid != pid)
      requires pid in children.sessions || pid in children.servers
      modifies this`displays, this`list, list`next, d`serverPid, d`status
      modifies children`sessions, children`servers, children`told
      ensures Valid() && Onward() && Bereaved(d) && OthersKept(d)
      ensures |list| <= |old(list)| && forall x :: x in list ==> x in old(list)
      ensures children.sessions == old(children.sessions) - {pid} && children.servers == old(children.servers) - {pid}
      ensures old(Faithful()) ==> Faithful() && d == old(Owner(pid)) && pid !in old(children.sessions)
    {
      hide Cut, Manager.Valid, Manager.Node, Manager.Faithful, Manager.Owner;
      hide Manager.Owns, Manager.OwnsServer, Manager.OwnsSession;
      NoSuchProcess();
      OwnerNames(pid);
      WaitPid(pid);
      label Waited:
      ServerEnded(d, k);
      if old(Faithful()) {
        BuriedFaithful@Waited(d);
      }
    }

    /** A child that no display names. */
    method BuryStranger(pid: int)
      requires Valid() && (pid in children.sessions || pid in children.servers)
      requires forall x :: x in list ==> x.pid != pid && x.serverPid != pid
      modifies children`sessions, children`servers
      ensures Valid() && Onward()
      ensures children.sessions == old(children.sessions) - {pid} && children.servers == old(children.servers) - {pid}
      ensures old(Faithful()) ==> Faithful() && old(Owner(pid)) == null
    {
      hide Manager.Valid, Manager.Owner, Manager.Owns;
      NoSuchProcess();
      OwnerNames(pid);
      WaitPid(pid);
    }

    /** A child has exited: its display, if one names it, is dealt with. */
    method Reap(pid: int, code: Code) returns (d: Display?, session: bool)
      requires Valid() && (pid in children.sessions || pid in children.servers)
      modifies this`displays, this`list, list`next, list`pid, list`serverPid, list`status, list`startTries
      modifies children`sessions, children`servers, children`told, this`ended, this`givenUp
      ensures Valid() && Onward()
      ensures |list| <= |old(list)| && forall x :: x in list ==> x in old(list)
      ensures children.sessions == old(children.sessions) - {pid} && children.servers == old(children.servers) - {pid}
      ensures old(Faithful()) ==> Faithful()
      ensures old(Faithful()) ==> d == old(Owner(pid)) && (d != null ==> (session <==> pid in old(children.sessions)))
      ensures d == null ==> list == old(list) && ended == old(ended) && givenUp == old(givenUp)
      ensures d != null ==> d in old(list) && pid == if session then old(d.pid) else old(d.serverPid)
      ensures OthersKept(d)
      ensures d != null ==> if session then Widowed(d, code) else Bereaved(d)
    {
      hide Cut, FateOf, TriesAfter, EndsWith, Manager.Valid, Manager.Linked, Manager.Node, Manager.Faithful;
      hide Manager.Owner, Manager.Owns;
      ghost var k;
      Head();
      d, k := FindDisplayByPid(pid);
      if d != null {
        session := true;
        Listed(d, k);
        BurySession(d, k, pid, code);
        return;
      }
      session := false;
      d, k := FindDisplayByServerPid(pid);
      if d != null {
        Listed(d, k);
        BuryServer(d, k, pid);
      } else {
        BuryStranger(pid);
      }
    }

    method MarkDisplays()
      requires Valid()
      modifies list`state
      ensures Valid() && forall x :: x in list ==> x.state == MissingEntry
    {
      hide Manager.Valid;
      var d := displays;
      ghost var i := 0;
      Head();
      while d != null
        invariant Valid() && i <= |list| && d == Node(i)
        invariant forall j :: 0 <= j < i ==> list[j].state == MissingEntry
        decreases |list| - i
      {
        var next := Next(d, i);
        d.state := MissingEntry;
        d, i := next, i + 1;
      }
    }

    /** One line of the servers file: the first display of that name is kept, and where there is none a new
        one joins the list. */
    method ParseDisplay(line: Line)
      requires Valid()
      modifies this`displays, this`list, list`state, list`kind
      ensures Valid() && Onward()
      ensures var d := First(list, line.name);
        && d != null && d.kind == Kind(line.local, true, true) && d.state != MissingEntry
        && if old(First(list, line.name)) == null
           then fresh(d) && d.status == NotRunning && d.pid == NO_PROCESS && d.startTries == 0
             && list == [d] + old(list)
           else d == old(First(list, line.name)) && list == old(list)
      ensures forall x :: x in old(list) && x != First(list, line.name) ==>
        x.state == old(x.state) && x.kind == old(x.kind)
      ensures old(Faithful()) ==> Faithful()
    {
      hide Manager.Linked, Manager.AllSound, Manager.Tracked, Manager.Signalled, Children.Apart;
      ghost var k;
      var d: Display?;
      d, k := FindDisplayByName(line.name);
      if d != null {
        d.state := OldEntry;
        d.kind := Kind(line.local, true, true);
      } else {
        d := NewDisplay(line.name, Kind(line.local, true, true));
      }
    }

    /** The servers file has been read: every line has its display, and the displays not marked missing are
        the first ones of the names in the file. */
    ghost predicate Read(lines: seq<Line>)
      reads this`list, list`state, list`kind
    {
      && (forall i :: 0 <= i < |lines| ==> First(list, lines[i].name) != null)
      && (forall x :: x in list ==> (x.state != MissingEntry <==> NamedIn(lines, x.name) && x == First(list, x.name)))
      && (forall x :: x in list && x.state != MissingEntry ==> x.kind.fromFile)
    }

    /** What reading lines of the servers file leaves of the list: displays are only added, each under a new
        name. */
    twostate predicate Grown()
      reads this`list, list`status, list`pid, list`startTries
    {
      && (forall x :: x in old(list) ==> x in list)
      && (forall x :: x in list ==> x in old(list) || (fresh(x) && First(old(list), x.name) == null))
      && (forall x :: x in list ==>
           x in old(list) || (x.status == NotRunning && x.pid == NO_PROCESS && x.startTries == 0))
      && (forall name :: First(old(list), name) != null ==> First(list, name) == First(old(list), name))
    }

    /** Only displays that are named have changed. */
    twostate predicate MissingKept()
      reads this`list, list`state, list`kind
    {
      forall x :: x in old(list) && x in list && x.state == MissingEntry ==>
        x.kind == old(x.kind) && old(x.state) == MissingEntry
    }

    lemma NothingRead()
      requires forall x :: x in list ==> x.state == MissingEntry
      ensures Read([])
    {
    }

    method ParseNext(lines: seq<Line>, n: nat)
      requires Valid() && n < |lines| && Read(lines[..n])
      modifies this`displays, this`list, list`state, list`kind
      ensures Valid() && Onward() && Read(lines[..n + 1]) && Grown() && MissingKept()
      ensures forall name :: Only(old(list), name) && lines[n].name == name ==> Only(list, name)
      ensures old(Faithful()) ==> Faithful()
    {
      hide Manager.Valid, Manager.Faithful, Manager.Onward, NamedIn, First;
      ParseDisplay(lines[n]);
      NamedMore(lines, n);
      FirstMembers(old(list));
      FirstMembers(list);
      FirstPut(list[0], old(list));
      assert old(list) != [] ==> old(list)[0] in old(list);
      forall x | x in list
        ensures x.state != MissingEntry <==> NamedIn(lines[..n + 1], x.name) && x == First(list, x.name)
      {
        if x.name != lines[n].name {
          assert First(list, x.name) == First(old(list), x.name);
        } else if x != First(list, x.name) {
          assert x in old(list) && x != First(old(list), x.name);
        }
      }
    }

    method ScanServers(lines: seq<Line>)
      requires Valid() && forall x :: x in list ==> x.state == MissingEntry
      modifies this`displays, this`list, list`state, list`kind
      ensures Valid() && Onward() && Read(lines) && Grown() && MissingKept()
      ensures forall name :: Only(old(list), name) && OneName(lines, name) ==> Only(list, name)
      ensures old(Faithful()) ==> Faithful()
    {
      hide Manager.Valid, Manager.Faithful, Manager.Read;
      NothingRead();
      assert lines[..0] == [];
      for n := 0 to |lines|
        invariant Valid() && Onward() && Read(lines[..n]) && Grown() && MissingKept()
        invariant forall name :: Only(old(list), name) && OneName(lines, name) ==> Only(list, name)
        invariant old(Faithful()) ==> Faithful()
      {
        assert forall j :: 0 <= j < |list| ==> list[j] in old(list) || fresh(list[j]);
        ParseNext(lines, n);
      }
      assert lines[..|lines|] == lines;
    }

    /** The part of a rescan that starts nothing. */
    method Reread(lines: seq<Line>, config: map<string, Resources>)
      requires Valid()
      modifies this`displays, this`list, this`config, list`state, list`kind
      ensures Valid() && Onward() && Read(lines) && Grown()
      ensures forall x :: x in old(list) && x in list && x.state == MissingEntry ==> x.kind == old(x.kind)
      ensures forall name :: Only(old(list), name) && OneName(lines, name) ==> Only(list, name)
      ensures old(Faithful()) ==> Faithful()
      ensures old(Recorded()) ==> Recorded()
    {
      hide Manager.Valid, Manager.Faithful, Manager.Read, Manager.Recorded;
      this.config := config;
      MarkDisplays();
      ScanServers(lines);
      StillRecorded();
    }

    /** After a rescan a display of the servers file is dying if no line names it or another display comes
        first under its name; one that a line names is dying exactly if it was dying when the line was
        read, and otherwise leaves the list only if something has failed since. */
    method RescanServers(lines: seq<Line>, config: map<string, Resources>)
      requires Valid()
      modifies this`displays, this`list, this`config, list`next, list`serverPid, list`resources, list`pid, list`status
      modifies list`state, list`kind, children
      ensures Valid() && Onward()
      ensures forall x :: x in list ==>
        Settled(x, old(children.setbacks)) && (x in old(list) || First(old(list), x.name) == null)
      ensures forall x :: x in list && x.kind.fromFile && !Chosen(lines, old(list), x) ==> x.status == Zombie
      ensures forall x :: x in old(list) && Chosen(lines, old(list), x) ==>
        && (x in list ==> x.state != MissingEntry && (x.status == Zombie <==> old(x.status) == Zombie))
        && (x !in list ==> children.setbacks > old(children.setbacks) && old(x.status) == NotRunning)
        && (old(x.status) != NotRunning ==> x.serverPid == old(x.serverPid))
      ensures forall i :: 0 <= i < |lines| ==> HasDisplay(lines[i].name) || children.setbacks > old(children.setbacks)
      ensures children.setbacks >= old(children.setbacks)
      ensures children.lost == {} ==> old(children.lost) == {}
      ensures old(Faithful()) && children.lost == {} ==> Faithful()
      ensures forall name :: Only(old(list), name) && OneName(lines, name) ==>
        Only(list, name) && (old(Faithful()) ==> Faithful())
      ensures old(Recorded()) ==> Recorded()
    {
      hide Manager.Valid, Manager.Faithful, Manager.Read, Manager.HasDisplay, Manager.Settled, NamedIn;
      hide Manager.Recorded;
      Reread(lines, config);
      FirstMembers(old(list));
      assert forall j :: 0 <= j < |list| ==> list[j] in old(list) || fresh(list[j]);
      StartRead(lines);
    }

    /** The walk that follows the reading of the servers file. */
    method StartRead(lines: seq<Line>)
      requires Valid() && Read(lines)
      modifies this`displays, this`list, list`next, list`serverPid, list`resources, list`pid, list`status, list`state
      modifies children
      ensures Valid() && Onward()
      ensures |list| <= |old(list)| && forall x :: x in list ==> x in old(list) && Settled(x, old(children.setbacks))
      ensures forall x :: x in list && x.kind.fromFile && !(NamedIn(lines, x.name) && x == First(old(list), x.name)) ==>
        x.status == Zombie
      ensures forall x :: x in old(list) ==> x.kind == old(x.kind)
      ensures forall x :: x in old(list) && NamedIn(lines, x.name) && x == First(old(list), x.name) ==>
        && (x in list ==> x.state != MissingEntry && (x.status == Zombie <==> old(x.status) == Zombie))
        && (x !in list ==> children.setbacks > old(children.setbacks) && old(x.status) == NotRunning)
        && (old(x.status) != NotRunning ==> x.serverPid == old(x.serverPid))
      ensures forall i :: 0 <= i < |lines| ==> HasDisplay(lines[i].name) || children.setbacks > old(children.setbacks)
      ensures children.setbacks >= old(children.setbacks)
      ensures children.lost == {} ==> old(children.lost) == {}
      ensures old(Faithful()) && (children.lost == {} || |old(list)| <= 1) ==> Faithful()
      ensures old(Recorded()) ==> Recorded()
    {
      hide Manager.Valid, Manager.Faithful, Manager.Onward, Manager.Recorded;
      FirstMembers(list);
      StartDisplays();
      forall i | 0 <= i < |lines| && children.setbacks == old(children.setbacks) ensures HasDisplay(lines[i].name) {
        var x := First(old(list), lines[i].name);
        assert NamedIn(lines, x.name);
        assert x in list && x.state == OldEntry;
      }
    }

    /** A display of that name stands in the servers file. */
    ghost predicate HasDisplay(name: string)
      reads this`list, list`kind, list`state
    {
      exists x :: x in list && x.name == name && x.kind.fromFile && x.state == OldEntry
    }

    /** One child has exited and is reaped. */
    method ReapOne(pid: int, code: Code)
      requires Valid() && (pid in children.sessions || pid in children.servers)
      modifies this`displays, this`list, list`next, list`pid, list`serverPid, list`status, list`startTries
      modifies children`sessions, children`servers, children`told, this`ended, this`givenUp
      ensures Valid() && Onward()
      ensures |list| <= |old(list)| && forall x :: x in list ==> x in old(list)
      ensures forall x :: x in old(list) ==> Passed(x, old(x.status), old(x.pid), old(x.serverPid), {pid})
      ensures old(Faithful()) ==> Faithful()
      ensures old(Faithful()) ==>
        forall x :: x in old(list) && old(x.status) == Zombie && pid == old(x.serverPid) ==> x !in list
      ensures RecordsGrow() && (old(Recorded()) ==> Recorded()) && Entered(pid, code)
    {
      hide *;
      DyingServers();
      NoSuchProcess();
      OwnerNames(pid);
      var d, session := Reap(pid, code);
      ReapRecorded(d, session, code);
      ReapPassed(d, session, pid, code);
      ReapDying(d, session, pid);
      ReapEntered(d, session, pid, code);
    }

    /** What a rescan in the midst of exits means for the displays that were there. */
    method RereadMeanwhile(lines: seq<Line>, config: map<string, Resources>)
      requires Valid()
      modifies this`displays, this`list, this`config, list`state, list`kind
      ensures Valid() && Joined()
      ensures forall name :: Only(old(list), name) && OneName(lines, name) ==> Only(list, name)
      ensures old(Faithful()) ==> Faithful()
      ensures old(Recorded()) ==> Recorded()
    {
      hide Manager.Valid, Manager.Faithful, Manager.Read, Manager.Recorded, First, Only, OneName;
      Reread(lines, config);
    }

    /** Only displays without a session have joined the list, and none has left it. */
    twostate predicate Joined()
      reads this`list, list`pid
    {
      && (forall x :: x in old(list) ==> x in list)
      && (forall x :: x in list ==> x in old(list) || (fresh(x) && x.pid == NO_PROCESS))
    }

    /** The servers file is read again, and then the child reaped. */
    method RereadAndReap(e: Exit)
      requires Valid() && (e.pid in children.sessions || e.pid in children.servers)
      modifies this`displays, this`list, this`config, list`next, list`serverPid, list`pid, list`status
      modifies list`state, list`kind, list`startTries, children`sessions, children`servers, children`told
      modifies this`ended, this`givenUp
      ensures Valid() && Onward()
      ensures forall x :: x in old(list) ==> Passed(x, old(x.status), old(x.pid), old(x.serverPid), {e.pid})
      ensures old(Faithful()) ==>
        Faithful() && forall x :: x in old(list) && old(x.status) == Zombie && e.pid == old(x.serverPid) ==> x !in list
      ensures forall name :: Only(old(list), name) && OneName(e.lines, name) ==> Only(list, name)
      ensures RecordsGrow() && (old(Recorded()) ==> Recorded()) && Entered(e.pid, e.code)
    {
      hide Manager.Valid, Manager.Faithful, Manager.Recorded, Manager.Passed, OneName, Logged;
      NoSuchProcess();
      RereadMeanwhile(e.lines, e.config);
      assert forall j :: 0 <= j < |list| ==> list[j] in old(list) || fresh(list[j]);
      ReapOne(e.pid, e.code);
    }

    /** One child has exited: perhaps the servers file is read again, and the child is reaped. */
    method ReapNext(e: Exit)
      requires Valid()
      modifies this`displays, this`list, this`config, list`next, list`serverPid, list`resources, list`pid, list`status
      modifies list`state, list`kind, children
      modifies list`startTries, this`ended, this`givenUp
      ensures Valid() && Onward()
      ensures children.lost == old(children.lost) && children.setbacks == old(children.setbacks)
      ensures forall x :: x in old(list) ==> Passed(x, old(x.status), old(x.pid), old(x.serverPid), {e.pid})
      ensures old(Faithful()) ==>
        Faithful() && forall x :: x in old(list) && old(x.status) == Zombie && e.pid == old(x.serverPid) ==> x !in list
      ensures !e.changed ==> Shrunk()
      ensures forall name :: Only(old(list), name) && OneName(e.lines, name) ==> Only(list, name)
      ensures RecordsGrow() && (old(Recorded()) ==> Recorded()) && Entered(e.pid, e.code)
    {
      hide Manager.Valid, Manager.Faithful, Manager.Recorded, Manager.Owner, OneName;
      if e.pid !in children.sessions && e.pid !in children.servers {
        DyingServers();
        if e.pid != NO_PROCESS {
          NoOwner(e.pid);
        }
      } else if e.changed {
        RereadAndReap(e);
      } else {
        ReapOne(e.pid, e.code);
      }
    }

    lemma NoOwner(pid: int)
      requires pid !in children.sessions && pid !in children.servers && pid != NO_PROCESS
      ensures Faithful() ==> forall x :: x in list ==> x.pid != pid
    {
      if Faithful() {
        forall x | x in list ensures x.pid != pid {
          assert Owns(x);
        }
      }
    }

    /** No exit but that of the session `pid` has been put on record, and with faithful bookkeeping that has. */
    twostate predicate Entered(new pid: int, new code: Code)
      reads this`ended, this`list, list`pid
    {
      && (forall x :: x in ended && !(x in old(list) && old(x.pid) == pid != NO_PROCESS && old(x.status) != Zombie) ==>
           x in old(ended) && ended[x] == old(ended)[x])
      && (old(Faithful()) && pid != NO_PROCESS ==>
           forall x :: x in old(list) && old(x.pid) == pid && old(x.status) != Zombie ==>
             Logged(old(Record(x)), Record(x), code) && (x in list ==> x.pid == NO_PROCESS))
    }

    twostate lemma NothingEntered(new pid: int, new code: Code)
      requires ended == old(ended)
      requires old(Faithful()) ==> forall x :: x in old(list) && old(x.pid) == pid ==> old(x.status) == Zombie
      ensures Entered(pid, code)
    {
      hide Manager.Faithful;
    }

    twostate lemma OneEntered(d: Display, new pid: int, new e: Ended)
      requires d in old(list) && old(d.pid) == pid != NO_PROCESS && old(d.status) != Zombie && d.pid == NO_PROCESS
      requires ended == old(ended)[d := old(Record(d)) + [e]]
      requires old(Faithful()) ==> forall x :: x in old(list) && old(x.pid) == pid ==> x == d
      ensures Entered(pid, e.code)
    {
      LoggedLast(old(Record(d)), e);
      hide Logged, Manager.Faithful;
    }

    twostate lemma ReapEntered(d: Display?, new session: bool, new pid: int, new code: Code)
      requires d == null ==> ended == old(ended)
      requires d != null ==> d in old(list) && pid == if session then old(d.pid) else old(d.serverPid)
      requires pid != NO_PROCESS
      requires d != null ==> if session then Widowed(d, code) else Bereaved(d)
      requires old(Faithful()) ==> forall x :: x in old(list) && old(x.pid) == pid ==> d == x && session
      ensures Entered(pid, code)
    {
      hide FateOf, TriesAfter, Manager.Faithful, Manager.Entered, Manager.Record;
      if d != null && session && old(d.status) != Zombie {
        OneEntered(d, pid, Ended(code, d.kind, d.resources.startAttempts));
      } else {
        NothingEntered(pid, code);
      }
    }

    /** With faithful bookkeeping a dying display leaves the list when its server is reaped. */
    twostate lemma ReapDying(d: Display?, new session: bool, new pid: int)
      requires old(Faithful()) ==> forall x :: x in old(list) && old(x.status) == Zombie ==>
        old(x.serverPid !in children.sessions && Owner(x.serverPid) == x)
      requires old(Faithful()) ==> d == old(Owner(pid)) && (d != null ==> (session <==> pid in old(children.sessions)))
      requires d != null ==> d in old(list) && (!session ==> Bereaved(d))
      ensures old(Faithful()) ==>
        forall x :: x in old(list) && old(x.status) == Zombie && pid == old(x.serverPid) ==> x !in list
    {
      hide Manager.Faithful, Manager.Owner;
    }

    /** What reaping means for each display. */
    twostate lemma ReapPassed(d: Display?, new session: bool, new pid: int, new code: Code)
      requires Onward() && OthersKept(d)
      requires d != null ==> d in old(list) && pid == if session then old(d.pid) else old(d.serverPid)
      requires d != null ==> if session then Widowed(d, code) else Bereaved(d)
      ensures forall x :: x in old(list) ==> Passed(x, old(x.status), old(x.pid), old(x.serverPid), {pid})
    {
      if d != null {
        DyingStops(d.kind, old(d.startTries), d.resources.startAttempts, code);
      }
      hide FateOf, TriesAfter, Manager.Ends;
    }

    /** A child has been reaped: the exit of a session goes on record with its verdict, and nothing else
        does. */
    twostate lemma ReapRecorded(d: Display?, new session: bool, new code: Code)
      requires Onward() && OthersKept(d) && forall x :: x in list ==> x in old(list)
      requires d == null ==> ended == old(ended) && givenUp == old(givenUp)
      requires d != null ==> d in old(list) && if session then Widowed(d, code) else Bereaved(d)
      ensures RecordsGrow() && (old(Recorded()) ==> Recorded())
    {
      hide FateOf, TriesAfter, Tries, Survives;
      if d != null && session && old(d.status) != Zombie {
        FateIs(d.kind, false, old(d.startTries), d.resources.startAttempts, code);
        RecordMore(old(Record(d)), Ended(code, d.kind, d.resources.startAttempts));
        NoRecord();
      }
    }

    /** With faithful bookkeeping a dying display has its server, and that is no one's session. */
    lemma DyingServers()
      requires Valid()
      ensures Faithful() ==> forall x :: x in list && x.status == Zombie ==>
        x.serverPid in children.servers && x.serverPid !in children.sessions && Owner(x.serverPid) == x
    {
      if Faithful() {
        forall x | x in list && x.status == Zombie
          ensures x.serverPid in children.servers && x.serverPid !in children.sessions && Owner(x.serverPid) == x
        {
          assert x.Sound() && Owns(x);
        }
      }
    }

    /** What becomes of a display while the processes `exited` exit: dying it stays dying, with its server,
        while it is listed, and otherwise it stays listed and is not dying unless its session has exited. */
    ghost predicate Passed(d: Display, status: Status, pid: int, server: int, exited: set<int>)
      reads this`list, d`status, d`pid, d`serverPid
    {
      && (d in list ==> d.pid in {pid, NO_PROCESS})
      && if status == Zombie then d in list ==> d.status == Zombie && d.serverPid == server
         else pid !in exited ==> d in list && d.status != Zombie && d.pid == pid
    }

    /** No display has joined the list, and none has been marked anew. */
    twostate predicate Shrunk()
      reads this`list, list`state
    {
      |list| <= |old(list)| && forall x :: x in list ==> x in old(list) && x.state == old(x.state)
    }

    /** What the exits `exits` leave on record for a display: its session's, once. */
    ghost predicate Noted(d: Display, status: Status, pid: int, before: seq<Ended>, exits: seq<Exit>, faithful: bool)
      reads this`list, this`ended, d`pid
    {
      && (status == Zombie || pid !in Exited(exits) ==> Record(d) == before)
      && (faithful && status != Zombie && pid != NO_PROCESS && pid in Exited(exits) ==>
           Filed(before, Record(d), pid, exits) && (d in list ==> d.pid == NO_PROCESS))
    }

    twostate lemma NotedMore(d: Display, new status: Status, new pid: int, new server: int, new before: seq<Ended>,
                             new exits: seq<Exit>, new n: nat, new faithful: bool)
      requires n < |exits| && old(Noted(d, status, pid, before, exits[..n], faithful))
      requires old(Passed(d, status, pid, server, Exited(exits[..n])))
      requires old(d in list) ==> Passed(d, old(d.status), old(d.pid), old(d.serverPid), {exits[n].pid})
      requires RecordsGrow() && Entered(exits[n].pid, exits[n].code) && (faithful ==> old(Faithful()))
      requires d in list ==> old(d in list)
      requires faithful && status == Zombie && server in Exited(exits[..n]) ==> old(d !in list)
      requires faithful && old(d in list && d.status == Zombie && d.serverPid == exits[n].pid) ==> d !in list
      ensures faithful && status == Zombie && server in Exited(exits[..n + 1]) ==> d !in list
      ensures Noted(d, status, pid, before, exits[..n + 1], faithful)
      ensures Passed(d, status, pid, server, Exited(exits[..n + 1]))
    {
      assert exits[..n + 1] == exits[..n] + [exits[n]];
      assert Exited(exits[..n + 1]) == Exited(exits[..n]) + {exits[n].pid};
      FiledMore(before, Record(d), pid, exits, n);
      hide Exited, Filed;
    }

    method ReapAll(exits: seq<Exit>)
      requires Valid()
      modifies this`displays, this`list, this`config, list`next, list`serverPid, list`resources, list`pid, list`status
      modifies list`state, list`kind, children
      modifies list`startTries, this`ended, this`givenUp
      ensures Valid() && Onward()
      ensures children.lost == old(children.lost) && children.setbacks == old(children.setbacks)
      ensures forall x :: x in old(list) ==> Passed(x, old(x.status), old(x.pid), old(x.serverPid), Exited(exits))
      ensures old(Faithful()) ==> Faithful()
      ensures old(Faithful()) ==>
        forall x :: x in old(list) && old(x.status) == Zombie && old(x.serverPid) in Exited(exits) ==> x !in list
      ensures (forall n :: 0 <= n < |exits| ==> !exits[n].changed) ==> Shrunk()
      ensures forall name :: Only(old(list), name) && AllOneName(exits, name) ==> Only(list, name)
      ensures RecordsGrow() && (old(Recorded()) ==> Recorded())
      ensures forall x :: x in old(list) ==>
        Noted(x, old(x.status), old(x.pid), old(Record(x)), exits, old(Faithful()))
    {
      hide Filed, Manager.Valid, Manager.Faithful, Manager.Recorded, Manager.Passed, Manager.Noted, Manager.Entered;
      hide Only, OneName;
      NoExits();
      assert exits[..0] == [];
      for n := 0 to |exits|
        invariant Valid() && Onward()
        invariant children.lost == old(children.lost) && children.setbacks == old(children.setbacks)
        invariant forall x :: x in old(list) ==>
          Passed(x, old(x.status), old(x.pid), old(x.serverPid), Exited(exits[..n]))
        invariant old(Faithful()) ==> Faithful()
        invariant old(Faithful()) ==>
          forall x :: x in old(list) && old(x.status) == Zombie && old(x.serverPid) in Exited(exits[..n]) ==> x !in list
        invariant (forall m :: 0 <= m < n ==> !exits[m].changed) ==> Shrunk()
        invariant forall name :: Only(old(list), name) && (forall m :: 0 <= m < n ==> OneName(exits[m].lines, name)) ==>
          Only(list, name)
        invariant RecordsGrow() && (old(Recorded()) ==> Recorded())
        invariant forall x :: x in old(list) ==>
          Noted(x, old(x.status), old(x.pid), old(Record(x)), exits[..n], old(Faithful()))
      {
        assert forall j :: 0 <= j < |list| ==> list[j] in old(list) || fresh(list[j]);
        assert Exited(exits[..n + 1]) == Exited(exits[..n]) + {exits[n].pid};
        label Before:
        ReapNext(exits[n]);
        forall x | x in old(list)
          ensures Passed(x, old(x.status), old(x.pid), old(x.serverPid), Exited(exits[..n + 1]))
          ensures old(Faithful()) ==>
            old(x.status) == Zombie && old(x.serverPid) in Exited(exits[..n + 1]) ==> x !in list
          ensures Noted(x, old(x.status), old(x.pid), old(Record(x)), exits[..n + 1], old(Faithful()))
        {
          NotedMore@Before(x, old(x.status), old(x.pid), old(x.serverPid), old(Record(x)), exits, n, old(Faithful()));
        }
      }
      assert exits[..|exits|] == exits;
    }

    lemma NoExits()
      ensures Exited([]) == {}
      ensures forall x :: x in list ==> Passed(x, x.status, x.pid, x.serverPid, {})
      ensures forall x, faithful :: x in list ==> Noted(x, x.status, x.pid, Record(x), [], faithful)
    {
      assert Exited([]) == {};
    }

    /** Every exit is dealt with and then the list walked.  The exits of the sessions of displays that were
        not dying go on record, and nothing else does. */
    method WaitForChild(exits: seq<Exit>)
      requires Valid()
      modifies this`displays, this`list, this`config, list`next, list`serverPid, list`resources, list`pid, list`status
      modifies list`state, list`kind, children
      modifies list`startTries, this`ended, this`givenUp
      ensures Valid() && Onward()
      ensures forall x :: x in list ==> Settled(x, old(children.setbacks))
      ensures children.setbacks >= old(children.setbacks)
      ensures children.lost == {} ==> old(children.lost) == {}
      ensures old(Faithful()) && children.lost == {} ==> Faithful()
      ensures old(Faithful()) ==>
        forall x :: x in old(list) && old(x.status) == Zombie && old(x.serverPid) in Exited(exits) ==> x !in list
      ensures (forall n :: 0 <= n < |exits| ==> !exits[n].changed) ==> forall x :: x in list ==> x in old(list)
      ensures (forall n :: 0 <= n < |exits| ==> !exits[n].changed) ==>
        forall x :: x in old(list) && old(x.status) != Zombie && old(x.state) != MissingEntry ==>
          old(x.pid) in Exited(exits) || (x in list && x.status != Zombie) || children.setbacks > old(children.setbacks)
      ensures forall name :: Only(old(list), name) && AllOneName(exits, name) ==>
        Only(list, name) && (old(Faithful()) ==> Faithful())
      ensures forall x :: x in old(list) && (old(x.status) == Zombie || old(x.pid) !in Exited(exits)) ==>
        Record(x) == old(Record(x))
      ensures old(Faithful()) ==>
        forall x :: x in old(list) && old(x.status) != Zombie && old(x.pid) in Exited(exits) - {NO_PROCESS} ==>
          Filed(old(Record(x)), Record(x), old(x.pid), exits)
      ensures RecordsGrow() && (old(Recorded()) ==> Recorded())
    {
      hide Manager.Valid, Manager.Faithful, Manager.Settled, Manager.Recorded;
      ReapAll(exits);
      assert forall j :: 0 <= j < |list| ==> list[j] in old(list) || fresh(list[j]);
      StartDisplays();
    }

    lemma Numbers(d: Display)
      requires Valid()
      ensures d in list && d.status == Zombie ==> d.serverPid != NO_PROCESS
      ensures Faithful() && d in list && d.serverPid != NO_PROCESS ==> d.pid != d.serverPid
    {
      assert d in list ==> d.Sound();
      assert Faithful() && d in list ==> Owns(d);
    }

    /** A display is named by the servers file and then its server exits: it is still there afterwards if
        and only if it was not dying when its line was read, unless something has failed or an exit was
        swallowed.  If it was dying, no display of its name is left, although the file names it. */
    method Relist(d: Display, lines: seq<Line>, config: map<string, Resources>, code: Code)
      requires Valid() && Faithful()
      requires d in list && NamedIn(lines, d.name) && forall x :: x in list && x.name == d.name ==> x == d
      modifies this`displays, this`list, this`config, list`next, list`serverPid, list`resources, list`pid, list`status
      modifies list`state, list`kind, children
      modifies list`startTries, this`ended, this`givenUp
      ensures Valid()
      ensures children.lost == {} && children.setbacks == old(children.setbacks) ==>
        (d in list <==> old(d.status) != Zombie)
      ensures children.lost == {} && old(d.status) == Zombie ==> forall x :: x in list ==> x.name != d.name
    {
      hide Manager.Valid, Manager.Faithful, Manager.Settled, Manager.Recorded, First, Only, OneName, AllOneName, Filed;
      FirstMembers(list);
      Numbers(d);
      assert First(list, d.name) == d && Chosen(lines, list, d);
      RescanServers(lines, config);
      assert forall j :: 0 <= j < |list| ==> list[j] in old(list) || fresh(list[j]);
      if d.serverPid != NO_PROCESS {
        Numbers(d);
        var exits := [Exit(d.serverPid, code, false, [], map[])];
        assert exits[0].pid in Exited(exits);
        WaitForChild(exits);
      }
    }

    method StopNamed(name: string)
      requires Valid()
      modifies this`displays, this`list, list`next, list`status, children`told
      ensures Valid() && Onward()
      ensures |list| <= |old(list)| && forall x :: x in list ==> x in old(list)
      ensures var d := First(old(list), name); d != null ==> d !in list || d.status == Zombie
      ensures old(Faithful()) ==> Faithful()
    {
      hide Cut, First, Stopped, Manager.Valid, Manager.ValidBut, Manager.Faithful, Manager.Books, Manager.Linked;
      hide Manager.Node;
      Head();
      ghost var k;
      var d: Display?;
      d, k := FindDisplayByName(name);
      if d != null {
        OnceListed(d, k);
        JustStop(d);
        StopDisplay(d, k);
      }
    }

    method StartRemote(name: string)
      requires Valid()
      modifies this`displays, this`list, list`next, list`serverPid, list`resources, list`pid, list`status, children
      ensures Valid() && Onward()
      ensures children.lost == {} ==> old(children.lost) == {}
      ensures old(Faithful()) && children.lost == {} ==> Faithful()
      ensures list != [] && fresh(list[0]) && list[0].name == name && !list[0].kind.fromFile
      ensures list == [list[0]] + old(list) && list[0].startTries == 0
      ensures list[0].status == Running || children.setbacks > old(children.setbacks)
      ensures forall x :: x in old(list) ==> x.status == old(x.status)
    {
      hide Manager.Valid, Manager.Faithful;
      var d := NewDisplay(name, Kind(false, false, false));
      assert forall j :: 0 <= j < |list| ==> list[j] in old(list) || fresh(list[j]);
      StartDisplay(d, 0);
    }

    /** A remote display asks for a session: whatever bears its name is stopped and a new display started. */
    method Manage(name: string)
      requires Valid()
      modifies this`displays, this`list, list`next, list`serverPid, list`resources, list`pid, list`status, children
      ensures Valid() && Onward()
      ensures children.lost == {} ==> old(children.lost) == {}
      ensures old(Faithful()) && children.lost == {} ==> Faithful()
      ensures var d := First(old(list), name); d != null ==> d !in list || d.status == Zombie
      ensures list != [] && (list[0].status == Running || children.setbacks > old(children.setbacks))
      ensures |list| <= |old(list)| + 1 && list[0].name == name && fresh(list[0]) && !list[0].kind.fromFile
      ensures old(Recorded()) ==> Recorded()
    {
      hide Manager.Valid, Manager.Faithful, Manager.Recorded, First;
      FirstMembers(list);
      StopNamed(name);
      assert forall j :: 0 <= j < |list| ==> list[j] in old(list);
      StartRemote(name);
      StillRecorded();
    }

    method StopNext(d: Display, ghost i: nat) returns (next: Display?, ghost n: nat)
      requires Valid() && Node(i) == d && forall j :: 0 <= j < i ==> list[j].status == Zombie
      modifies this`displays, this`list, list`next, d`status, children`told
      ensures Valid() && n <= |list| <= |old(list)| && next == Node(n)
      ensures |list| - n < |old(list)| - i
      ensures forall x :: x in list ==> x in old(list)
      ensures forall j :: 0 <= j < n ==> list[j].status == Zombie
      ensures forall x :: x in old(list) && x.serverPid != NO_PROCESS ==> x in list
      ensures old(d.status) == Zombie ==> d.status == Zombie
      ensures old(Faithful()) ==> Faithful()
    {
      hide Stopped, Manager.Valid, Manager.ValidBut, Manager.Faithful, Manager.Books, Manager.Node;
      OnceListed(d, i);
      next := Next(d, i);
      JustStop(d);
      StopDisplay(d, i);
      NodeAfter(i);
      n := if d.serverPid != NO_PROCESS then i + 1 else i;
    }

    method StopWalk()
      requires Valid()
      modifies this`displays, this`list, list`next, list`status, children`told
      ensures Valid() && Onward()
      ensures |list| <= |old(list)| && forall x :: x in list ==> x in old(list) && x.status == Zombie
      ensures forall x :: x in old(list) && x.serverPid != NO_PROCESS ==> x in list
      ensures old(Faithful()) ==> Faithful()
    {
      hide Manager.Valid, Manager.ValidBut, Manager.Faithful;
      var d := displays;
      ghost var i := 0;
      Head();
      while d != null
        invariant Valid() && 0 <= i <= |list| <= |old(list)| && d == Node(i)
        invariant forall x :: x in list ==> x in old(list) && (old(x.status) == Zombie ==> x.status == Zombie)
        invariant forall j :: 0 <= j < i ==> list[j].status == Zombie
        invariant forall x :: x in old(list) && x.serverPid != NO_PROCESS ==> x in list
        invariant old(Faithful()) ==> Faithful()
        decreases |list| - i
      {
        assert forall j :: 0 <= j < |list| ==> list[j] in old(list);
        Listed(d, i);
        d, i := StopNext(d, i);
      }
      AtEnd(i);
    }

    /** Shutting down: displays with a server are dying, all others are gone. */
    method StopAll()
      requires Valid()
      modifies this`displays, this`list, list`next, list`status, children`told
      ensures Valid() && Onward()
      ensures |list| <= |old(list)| && forall x :: x in list ==> x in old(list) && x.status == Zombie
      ensures forall x :: x in old(list) && x.serverPid != NO_PROCESS ==> x in list
      ensures old(Faithful()) ==> Faithful()
      ensures old(Recorded()) ==> Recorded()
    {
      hide *;
      StopWalk();
      StillRecorded();
    }

    /** Once every display is dying, the list is empty as soon as the last server has gone. */
    lemma ShutdownCompletes()
      requires Valid() && Faithful()
      requires forall x :: x in list ==> x.status == Zombie
      ensures list == [] <==> forall p :: p in children.servers ==> children.servers[p] !in list
    {
      if list != [] {
        var d := list[0];
        assert d.Sound() && Owns(d);
        assert d.serverPid in children.servers;
      }
    }

    /** The shape of every state that any run reaches. */
    lemma Bookkeeping()
      requires Valid() && Faithful()
      ensures forall d :: d in list && d.status in {Zombie, Phoenix} ==>
        d.serverPid in children.servers && children.servers[d.serverPid] == d && d.serverPid in children.told
      ensures forall d, p :: d in list && d.status in {NotRunning, Phoenix} && p in children.sessions ==>
        children.sessions[p] != d
      ensures forall p, q :: p in children.sessions && q in children.sessions && children.sessions[p] in list ==>
        children.sessions[p] == children.sessions[q] ==> p == q
      ensures forall p, q :: p in children.servers && q in children.servers && children.servers[p] in list ==>
        children.servers[p] == children.servers[q] ==> p == q
      ensures forall d, e :: d in list && e in list && d != e ==>
        Named(d.pid) + Named(d.serverPid) !! Named(e.pid) + Named(e.serverPid)
    {
      forall d, e | d in list && e in list && d != e
        ensures Named(d.pid) + Named(d.serverPid) !! Named(e.pid) + Named(e.serverPid)
      {
        assert Owns(d) && Owns(e);
      }
      forall d | d in list && d.status in {Zombie, Phoenix}
        ensures d.serverPid in children.servers && children.servers[d.serverPid] == d && d.serverPid in children.told
      {
        assert d.Sound() && Owns(d);
      }
      forall d, p | d in list && d.status in {NotRunning, Phoenix} && p in children.sessions
        ensures children.sessions[p] != d
      {
        assert d.Sound();
      }
    }

    method Handle(e: Event)
      requires Valid()
      modifies this`displays, this`list, this`config, list`next, list`serverPid, list`resources, list`pid, list`status
      modifies list`state, list`kind, children
      modifies list`startTries, this`ended, this`givenUp
      ensures Valid() && Onward()
      ensures children.lost == {} ==> old(children.lost) == {}
      ensures old(Faithful()) && children.lost == {} ==> Faithful()
      ensures forall name :: Only(old(list), name) && Concerns(e, name) ==>
        Only(list, name) && (old(Faithful()) ==> Faithful())
      ensures RecordsGrow() && (old(Recorded()) ==> Recorded())
    {
      hide Manager.Valid, Manager.Faithful, Manager.Settled, Manager.Recorded;
      match e {
        case Exits(exits) => WaitForChild(exits);
        case Hangup(lines, config) => RescanServers(lines, config);
        case RemoteRequest(name) => Manage(name);
        case Shutdown => StopAll();
      }
    }

    /** Every sequence of exits, rescans, remote requests and shutdowns keeps the bookkeeping, and keeps it
        faithful as long as no exit is swallowed by the wait for another display's server; it always does
        when the servers file has one display and no remote display asks for a session.  Whatever lies
        between them, the exits of a display's sessions stay on record, and the display is given up exactly
        as its record says. */
    method Run(events: seq<Event>)
      requires Valid()
      modifies this`displays, this`list, this`config, list`next, list`serverPid, list`resources, list`pid, list`status
      modifies list`state, list`kind, children
      modifies list`startTries, this`ended, this`givenUp
      ensures Valid() && Onward()
      ensures children.lost == {} ==> old(children.lost) == {}
      ensures old(Faithful()) && children.lost == {} ==> Faithful()
      ensures forall name :: Only(old(list), name) && (forall n :: 0 <= n < |events| ==> Concerns(events[n], name)) ==>
        Only(list, name) && (old(Faithful()) ==> Faithful())
      ensures RecordsGrow() && (old(Recorded()) ==> Recorded())
    {
      hide Manager.Valid, Manager.Faithful, Manager.Recorded, Concerns, Only;
      for n := 0 to |events|
        invariant Valid() && Onward()
        invariant children.lost == {} ==> old(children.lost) == {}
        invariant old(Faithful()) && children.lost == {} ==> Faithful()
        invariant forall name :: Only(old(list), name) && (forall m :: 0 <= m < n ==> Concerns(events[m], name)) ==>
          Only(list, name) && (old(Faithful()) ==> Faithful())
        invariant RecordsGrow() && (old(Recorded()) ==> Recorded())
      {
        assert forall j :: 0 <= j < |list| ==> list[j] in old(list) || fresh(list[j]);
        Handle(events[n]);
      }
    }
  }

  // ----- when the bookkeeping is faithful

  /** The bookkeeping: what the listed displays say, and the living processes. */
  datatype Book = Book(status: map<Display, Status>, pid: map<Display, int>, server: map<Display, int>,
                       sessions: map<int, Display>, servers: map<int, Display>)

  ghost predicate Shaped(b: Book) {
    && b.status.Keys == b.pid.Keys == b.server.Keys && b.sessions.Keys !! b.servers.Keys
    && (forall p :: p in b.sessions ==> p > 0) && (forall p :: p in b.servers ==> p > 0)
  }

  ghost predicate OwnsIn(b: Book, d: Display) {
    && d in b.pid && d in b.server
    && (b.pid[d] != NO_PROCESS ==> b.pid[d] in b.sessions && b.sessions[b.pid[d]] == d)
    && (b.server[d] != NO_PROCESS ==> b.server[d] in b.servers && b.servers[b.server[d]] == d)
  }

  ghost predicate FaithfulBook(b: Book) {
    forall d :: d in b.pid ==> OwnsIn(b, d)
  }

  /** Faithful, where `d` is to leave the list if its server is not up. */
  ghost predicate FaithfulLeft(b: Book, d: Display, up: bool) {
    forall x :: x in b.pid && (x != d || up) ==> OwnsIn(b, x)
  }

  /** Starting a server of `d`, when the processes in `reaped` exit meanwhile. */
  ghost predicate StartedWith(b: Book, d: Display, b': Book, up: bool, reaped: set<int>) {
    && d in b.server && d in b'.server && b'.status == b.status && b'.pid == b.pid
    && b'.server == b.server[d := b'.server[d]] && b'.sessions == b.sessions - reaped
    && if up then
         var p := b'.server[d];
         p > 0 && p !in b'.sessions && p !in b.servers - reaped && b'.servers == (b.servers - reaped)[p := d]
       else
         b'.servers == b.servers - reaped
  }

  ghost predicate ServerStart(b: Book, d: Display, b': Book, up: bool) {
    exists reaped :: StartedWith(b, d, b', up, reaped)
  }

  ghost predicate SessionStart(b: Book, d: Display, b': Book) {
    && d in b'.pid && b'.pid[d] > 0 && b'.pid[d] !in b.sessions && b'.pid[d] !in b.servers
    && b' == b.(status := b.status[d := Running], pid := b.pid[d := b'.pid[d]], sessions := b.sessions[b'.pid[d] := d])
  }

  /** Stopping a display that names a server. */
  ghost predicate Stopped(b: Book, d: Display, b': Book) {
    d in b.server && b.server[d] != NO_PROCESS && b' == b.(status := b.status[d := Zombie])
  }

  lemma {:induction false} UnusedNumber(ks: set<int>) returns (p: int)
    ensures p > 0 && forall k :: k in ks ==> k < p
    decreases ks
  {
    p := 1;
    if k :| k in ks {
      p := UnusedNumber(ks - {k});
      p := if p <= k then k + 1 else p;
      assert forall j :: j in ks ==> j == k || j in ks - {k};
    }
  }

  /** Every outcome of starting a server leaves faithful bookkeeping faithful if and only if no other
      listed display names a process at that moment. */
  lemma FaithfulStartsExactly(b: Book, d: Display)
    requires Shaped(b) && FaithfulBook(b) && d in b.pid && b.pid[d] == NO_PROCESS && b.server[d] == NO_PROCESS
    ensures (forall b', up :: ServerStart(b, d, b', up) ==> FaithfulLeft(b', d, up))
       <==> (forall x :: x in b.pid && x != d ==> b.pid[x] == NO_PROCESS && b.server[x] == NO_PROCESS)
  {
    if x :| x in b.pid && x != d && !(b.pid[x] == NO_PROCESS && b.server[x] == NO_PROCESS) {
      var r := if b.pid[x] != NO_PROCESS then b.pid[x] else b.server[x];
      var b' := SwallowOne(b, d, r);
      assert OwnsIn(b, x) && !OwnsIn(b', x);
      assert ServerStart(b, d, b', true) && !FaithfulLeft(b', d, true);
    }
  }

  /** The outcome in which just the process `r` exits during the start. */
  lemma SwallowOne(b: Book, d: Display, r: int) returns (b': Book)
    requires Shaped(b) && d in b.server
    ensures StartedWith(b, d, b', true, {r}) && b'.server[d] != r && r !in b'.sessions && r !in b'.servers
  {
    var p := UnusedNumber(b.sessions.Keys + b.servers.Keys + {r});
    b' := b.(server := b.server[d := p], sessions := b.sessions - {r}, servers := (b.servers - {r})[p := d]);
  }

  /** Two displays of the servers file, both at rest. */
  ghost function Resting(a: Display, c: Display): Book {
    Book(map[a := NotRunning, c := NotRunning], map[a := NO_PROCESS, c := NO_PROCESS],
         map[a := NO_PROCESS, c := NO_PROCESS], map[], map[])
  }

  /** What a swallowed exit does: a display is started and stopped, and its server goes while another's
      is started; it waits for ever for a server that is gone. */
  lemma SwallowedExit(a: Display, c: Display) returns (b1: Book, b2: Book, b3: Book, b4: Book)
    requires a != c
    ensures ServerStart(Resting(a, c), a, b1, true) && SessionStart(b1, a, b2) && Stopped(b2, a, b3)
    ensures ServerStart(b3, c, b4, true)
    ensures a in b4.status && b4.status[a] == Zombie && !OwnsIn(b4, a) && !FaithfulBook(b4)
  {
    var b0 := Resting(a, c);
    b1 := SwallowOne(b0, a, 0);
    var p := b1.server[a];
    b2 := b1.(status := b1.status[a := Running], pid := b1.pid[a := p + 1], sessions := b1.sessions[p + 1 := a]);
    b3 := b2.(status := b2.status[a := Zombie]);
    b4 := SwallowOne(b3, c, p);
    assert StartedWith(b0, a, b1, true, {0}) && StartedWith(b3, c, b4, true, {p});
  }

  ghost predicate NamedIn(lines: seq<Line>, name: string) {
    exists i :: 0 <= i < |lines| && lines[i].name == name
  }

  lemma NamedMore(lines: seq<Line>, n: nat)
    requires n < |lines|
    ensures forall name :: NamedIn(lines[..n + 1], name) <==> NamedIn(lines[..n], name) || name == lines[n].name
  {
    forall name | NamedIn(lines[..n], name) ensures NamedIn(lines[..n + 1], name) {
      var i :| 0 <= i < n && lines[..n][i].name == name;
      assert lines[..n + 1][i].name == name;
    }
    forall name | NamedIn(lines[..n + 1], name) && name != lines[n].name ensures NamedIn(lines[..n], name) {
      var i :| 0 <= i < n + 1 && lines[..n + 1][i].name == name;
      assert lines[..n][i].name == name;
    }
    assert lines[..n + 1][n].name == lines[n].name;
  }

  /** Some exit of the session `pid` has been put on record. */
  ghost predicate Filed(before: seq<Ended>, r: seq<Ended>, pid: int, exits: seq<Exit>) {
    exists n :: 0 <= n < |exits| && exits[n].pid == pid && Logged(before, r, exits[n].code)
  }

  lemma FiledMore(before: seq<Ended>, r: seq<Ended>, pid: int, exits: seq<Exit>, n: nat)
    requires n < |exits|
    ensures Filed(before, r, pid, exits[..n]) ==> Filed(before, r, pid, exits[..n + 1])
    ensures exits[n].pid == pid && Logged(before, r, exits[n].code) ==> Filed(before, r, pid, exits[..n + 1])
  {
    if Filed(before, r, pid, exits[..n]) {
      var m :| 0 <= m < n && exits[..n][m].pid == pid && Logged(before, r, exits[..n][m].code);
      assert exits[..n + 1][m] == exits[..n][m];
    }
    assert exits[..n + 1][n] == exits[n];
  }

  ghost function Exited(exits: seq<Exit>): set<int> {
    set n | 0 <= n < |exits| :: exits[n].pid
  }

  /** The first display of that name. */
  ghost function First(s: seq<Display>, name: string): Display? {
    if s == [] then null else if s[0].name == name then s[0] else First(s[1..], name)
  }

  /** No display but one, and that of the name `name`. */
  ghost predicate Only(s: seq<Display>, name: string) {
    |s| <= 1 && forall x :: x in s ==> x.name == name
  }

  ghost predicate OneName(lines: seq<Line>, name: string) {
    forall i :: 0 <= i < |lines| ==> lines[i].name == name
  }

  ghost predicate AllOneName(exits: seq<Exit>, name: string) {
    forall n :: 0 <= n < |exits| ==> OneName(exits[n].lines, name)
  }

  /** No display but that of the name `name` is asked for, and that one by the servers file. */
  ghost predicate Concerns(e: Event, name: string) {
    match e
    case Exits(exits) => AllOneName(exits, name)
    case Hangup(lines, _) => OneName(lines, name)
    case RemoteRequest(_) => false
    case Shutdown => true
  }

  /** A line names `x`, and no other display was there first under its name. */
  ghost predicate Chosen(lines: seq<Line>, was: seq<Display>, x: Display) {
    NamedIn(lines, x.name) && First(was, x.name) in {null, x}
  }

  lemma {:induction false} FirstMembers(s: seq<Display>)
    ensures forall name :: First(s, name) != null ==> First(s, name) in s && First(s, name).name == name
    ensures forall x :: x in s ==> First(s, x.name) != null
    decreases s
  {
    if s != [] {
      FirstMembers(s[1..]);
      assert s == [s[0]] + s[1..];
    }
  }

  lemma FirstPut(d: Display, s: seq<Display>)
    ensures forall name :: First([d] + s, name) == if d.name == name then d else First(s, name)
  {
    assert ([d] + s)[1..] == s;
  }

  lemma {:induction false} FirstAt(s: seq<Display>, name: string, k: nat)
    requires k <= |s| && (k < |s| ==> s[k].name == name) && forall i :: 0 <= i < k ==> s[i].name != name
    ensures First(s, name) == if k < |s| then s[k] else null
    decreases s
  {
    if s != [] && k > 0 {
      FirstAt(s[1..], name, k - 1);
    }
  }

  lemma CutAt(s: seq<Display>, k: nat)
    requires k < |s|
    ensures |Cut(s, k)| == |s| - 1
    ensures forall i {:trigger Cut(s, k)[i]} :: 0 <= i < |s| - 1 ==> Cut(s, k)[i] == if i < k then s[i] else s[i + 1]
  {
  }

  lemma CutWithin(s: seq<Display>, k: nat)
    requires k < |s|
    ensures forall x :: x in Cut(s, k) ==> x in s
  {
  }

  lemma CutMembers(s: seq<Display>, k: nat)
    requires k < |s| && forall i, j :: 0 <= i < j < |s| ==> s[i] != s[j]
    ensures s[k] !in Cut(s, k)
    ensures forall x :: x in Cut(s, k) ==> x in s
    ensures forall x :: x in s && x != s[k] ==> x in Cut(s, k)
  {
  }

  ghost function Cut(s: seq<Display>, k: nat): (r: seq<Display>)
    requires k < |s|
    ensures |r| == |s| - 1
  {
    s[..k] + s[k + 1..]
  }

  ghost function Named(pid: int): set<int> {
    if pid == NO_PROCESS then {} else {pid}
  }
}
