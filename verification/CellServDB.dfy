/** The cell database tool: merging two lists of cells, and listing what must be done to get from the
    old list to the new one. */
module CellServDB {
  import opened Options

  datatype Server = Server(name: string, ip: string)

  datatype CellEntry = CellEntry(name: string, description: string, servers: seq<Server>)

  ghost predicate SameSet(a: seq<Server>, b: seq<Server>) {
    (forall s :: s in a ==> s in b) && (forall s :: s in b ==> s in a)
  }

  /** Whether all servers of one list are in the other. */
  method AllIn(first: seq<Server>, second: seq<Server>) returns (ok: bool)
    ensures ok <==> forall s :: s in first ==> s in second
  {
    var i := 0;
    while i < |first|
      invariant i <= |first| && forall k :: 0 <= k < i ==> first[k] in second
    {
      var j, found := 0, false;
      while j < |second| && !found
        invariant j <= |second| && (found <==> first[i] in second[..j])
      {
        found := first[i].name == second[j].name && first[i].ip == second[j].ip;
        assert second[..j + 1] == second[..j] + [second[j]];
        j := j + 1;
      }
      assert j == |second| ==> second[..j] == second;
      if !found {
        return false;
      }
      i := i + 1;
    }
    ok := true;
  }

  method SameServers(first: seq<Server>, second: seq<Server>) returns (same: bool)
    ensures same <==> SameSet(first, second)
  {
    same := AllIn(first, second);
    if same {
      same := AllIn(second, first);
    }
  }

  // ----- merging

  class Node {
    const cell: CellEntry
    var next: Node?

    constructor (cell: CellEntry)
      ensures this.cell == cell && next == null
    {
      this.cell, next := cell, null;
    }
  }

  /** The list that starts at a node. */
  ghost predicate Linked(first: Node?, ns: seq<Node>)
    reads ns`next
  {
    && first == (if ns == [] then null else ns[0])
    && (forall a {:trigger ns[a].next} :: 0 <= a < |ns| ==> ns[a].next == if a + 1 < |ns| then ns[a + 1] else null)
    && forall a, b :: 0 <= a < b < |ns| ==> ns[a] != ns[b]
  }

  ghost predicate Named(ns: seq<Node>, name: string) {
    exists n :: n in ns && n.cell.name == name
  }

  /** The nodes whose cells are not named in the other list. */
  ghost function Kept(ns: seq<Node>, ms: seq<Node>): seq<Node> {
    if ns == [] then [] else
    var k := |ns| - 1;
    Kept(ns[..k], ms) + if Named(ms, ns[k].cell.name) then [] else [ns[k]]
  }

  lemma {:induction false} KeptMembers(ns: seq<Node>, ms: seq<Node>)
    ensures forall n :: n in Kept(ns, ms) ==> n in ns && !Named(ms, n.cell.name)
    ensures forall n :: n in ns && !Named(ms, n.cell.name) ==> n in Kept(ns, ms)
  {
    if ns != [] {
      var k := |ns| - 1;
      KeptMembers(ns[..k], ms);
      assert ns == ns[..k] + [ns[k]];
    }
  }

  /** Looks up a cell in a list. */
  method Lookup(list: Node?, name: string, ghost ms: seq<Node>) returns (reference: Node?)
    requires Linked(list, ms)
    ensures reference == null <==> !Named(ms, name)
    ensures reference != null ==> reference in ms && reference.cell.name == name
  {
    reference := list;
    ghost var a := 0;
    while reference != null
      invariant a <= |ms| && reference == (if a < |ms| then ms[a] else null)
      invariant forall b :: 0 <= b < a ==> ms[b].cell.name != name
      decreases |ms| - a
    {
      if reference.cell.name == name {
        assert ms[a] in ms;
        return;
      }
      reference, a := reference.next, a + 1;
    }
  }

  /** The node before another in a list. */
  method Before(list: Node, rover: Node, ghost ns: seq<Node>, ghost k: nat) returns (temp: Node)
    requires Linked(list, ns) && 0 < k < |ns| && ns[k] == rover
    ensures temp == ns[k - 1]
  {
    temp := list;
    ghost var a := 0;
    while temp.next != rover
      invariant a < k && temp == ns[a]
      decreases k - a
    {
      assert ns[a].next == ns[a + 1];
      a := a + 1;
      temp := temp.next;
    }
    assert ns[a].next == ns[a + 1];
  }

  /** Takes the node at `k` out of a list, putting `rest` after what comes before it. */
  method Skip(first: Node, rover: Node, rest: Node?, ghost ns: seq<Node>, ghost k: nat, ghost ms: seq<Node>,
              ghost region: set<Node>)
    returns (first': Node?)
    requires Linked(first, ns) && k < |ns| && ns[k] == rover && Linked(rest, ms)
    requires forall n :: n in ms ==> n !in ns[..k]
    requires forall n :: n in ns[..k] ==> n in region
    modifies region`next
    ensures Linked(first', ns[..k] + ms)
    ensures forall n :: n in region && n !in ns[..k] ==> n.next == old(n.next)
  {
    ghost var ls := ns[..k] + ms;
    assert forall n :: n in ns[k..] ==> n !in ns[..k];
    if rover == first {
      assert k == 0 && ls == ms;
      first' := rest;
    } else {
      assert k > 0;
      var temp := Before(first, rover, ns, k);
      assert forall a :: 0 <= a < k ==> ls[a] == ns[a] && ls[a] in ns[..k];
      assert forall a :: k <= a < |ls| ==> ls[a] == ms[a - k] && ls[a] in ms;
      temp.next := rest;
      first' := first;
    }
  }

  /** A cell of the first list left out because of one of the second. */
  datatype Warning = Duplicate(cell: CellEntry, because: CellEntry, same: bool)

  ghost predicate Fair(w: Warning, ms: seq<Node>) {
    && w.because.name == w.cell.name && (w.same <==> SameSet(w.because.servers, w.cell.servers))
    && exists m :: m in ms && m.cell == w.because
  }

  /** The cells left out, in order. */
  ghost function LeftOut(ns: seq<Node>, ms: seq<Node>): seq<CellEntry> {
    if ns == [] then [] else
    var k := |ns| - 1;
    LeftOut(ns[..k], ms) + if Named(ms, ns[k].cell.name) then [ns[k].cell] else []
  }

  ghost predicate WarnedOf(ws: seq<Warning>, ns: seq<Node>, ms: seq<Node>) {
    && |ws| == |LeftOut(ns, ms)|
    && forall i :: 0 <= i < |ws| ==> ws[i].cell == LeftOut(ns, ms)[i] && Fair(ws[i], ms)
  }

  /** Warns of a cell if the second list has it, too. */
  method Warn(rover: Node, second: Node?, ghost ms: seq<Node>) returns (w: Option<Warning>)
    requires Linked(second, ms)
    ensures w.Some? <==> Named(ms, rover.cell.name)
    ensures w.Some? ==> w.value.cell == rover.cell && Fair(w.value, ms)
  {
    var reference := Lookup(second, rover.cell.name, ms);
    if reference == null {
      return None;
    }
    var same := SameServers(reference.cell.servers, rover.cell.servers);
    w := Some(Duplicate(rover.cell, reference.cell, same));
  }

  lemma KeptNext(ns: seq<Node>, ms: seq<Node>, i: nat)
    requires i < |ns|
    ensures Kept(ns[..i + 1], ms) == Kept(ns[..i], ms) + if Named(ms, ns[i].cell.name) then [] else [ns[i]]
    ensures LeftOut(ns[..i + 1], ms) == LeftOut(ns[..i], ms) + if Named(ms, ns[i].cell.name) then [ns[i].cell] else []
  {
    assert ns[..i + 1][..i] == ns[..i];
  }

  /** Takes out the current cell, if it is a duplicate, or goes past it. */
  method MergeOne(first: Node, rover: Node, rest: Node?, second: Node?, ghost kept: seq<Node>, ghost after: seq<Node>,
                  ghost ms: seq<Node>, ghost tail: seq<Node>, ghost region: set<Node>)
    returns (first': Node?, w: Option<Warning>)
    requires Linked(first, kept + [rover] + tail) && Linked(second, ms) && Linked(rest, after)
    requires forall n :: n in after ==> n !in kept
    requires forall n :: n in ms ==> n !in kept
    requires forall n :: n in kept ==> n in region
    modifies region`next
    ensures w.Some? <==> Named(ms, rover.cell.name)
    ensures w.Some? ==> w.value.cell == rover.cell && Fair(w.value, ms)
    ensures w.Some? ==> Linked(first', kept + after)
    ensures w.None? ==> first' == first && Linked(first, kept + [rover] + tail)
    ensures Linked(second, ms) && forall n :: n in region && n !in kept ==> n.next == old(n.next)
  {
    w := Warn(rover, second, ms);
    first' := first;
    if w.Some? {
      ghost var ls := kept + [rover] + tail;
      assert ls[..|kept|] == kept;
      first' := Skip(first, rover, rest, ls, |kept|, after, region);
    }
  }

  /** Every node of the first list is kept or left out. */
  lemma KeptIn(ns: seq<Node>, ms: seq<Node>, i: nat, region: set<Node>)
    requires i <= |ns| && forall n :: n in ns ==> n in region && n !in ms
    ensures forall n :: n in Kept(ns[..i], ms) ==> n in region && n !in ms
    ensures forall n :: n in ms ==> n !in Kept(ns[..i], ms)
  {
    KeptMembers(ns[..i], ms);
  }

  /** One round of merging: the list so far loses a duplicate, or keeps the cell. */
  method MergeNext(first: Node, rover: Node, rest: Node?, second: Node?, ghost ns: seq<Node>, ghost ms: seq<Node>,
                   ghost i: nat, ghost after: seq<Node>, warnings: seq<Warning>, ghost region: set<Node>)
    returns (first': Node?, left: bool, warnings': seq<Warning>)
    requires i < |ns| && rover == ns[i] && Linked(first, Kept(ns[..i], ms) + [rover] + ns[i + 1..])
    requires Linked(second, ms) && Linked(rest, after) && WarnedOf(warnings, ns[..i], ms)
    requires forall n :: n in ns ==> n in region && n !in ms
    requires forall n :: n in after ==> n !in Kept(ns[..i], ms)
    modifies region`next
    ensures left <==> Named(ms, rover.cell.name)
    ensures left ==> Linked(first', Kept(ns[..i], ms) + after)
    ensures !left ==> first' == first && Linked(first, Kept(ns[..i], ms) + [rover] + ns[i + 1..])
    ensures Linked(second, ms) && forall n :: n in region && n !in Kept(ns[..i], ms) ==> n.next == old(n.next)
    ensures WarnedOf(warnings', ns[..i + 1], ms)
  {
    hide *;
    KeptIn(ns, ms, i, region);
    var w;
    first', w := MergeOne(first, rover, rest, second, Kept(ns[..i], ms), after, ms, ns[i + 1..], region);
    left := w.Some?;
    warnings' := if w.Some? then warnings + [w.value] else warnings;
    WarnedNext(warnings, w, ns, ms, i);
  }

  lemma WarnedNext(ws: seq<Warning>, w: Option<Warning>, ns: seq<Node>, ms: seq<Node>, i: nat)
    requires i < |ns| && WarnedOf(ws, ns[..i], ms)
    requires w.Some? <==> Named(ms, ns[i].cell.name)
    requires w.Some? ==> w.value.cell == ns[i].cell && Fair(w.value, ms)
    ensures WarnedOf(if w.Some? then ws + [w.value] else ws, ns[..i + 1], ms)
  {
    KeptNext(ns, ms, i);
  }

  lemma LinkedEnd(first: Node?, kept: seq<Node>, rover: Node, tail: seq<Node>)
    requires Linked(first, kept + [rover] + tail)
    ensures first != null && Linked(rover.next, tail)
    ensures forall n :: n in tail ==> n !in kept
    ensures rover !in kept
  {
    var ls := kept + [rover] + tail;
    assert ls[|kept|] == rover;
    assert forall a :: 0 <= a < |tail| ==> tail[a] == ls[|kept| + 1 + a];
    assert forall a :: 0 <= a < |kept| ==> kept[a] == ls[a];
  }

  /** Goes on to the next cell. */
  method MergeRound(first: Node, rover: Node, second: Node?, ghost ns: seq<Node>, ghost ms: seq<Node>, ghost i: nat,
                    warnings: seq<Warning>, ghost region: set<Node>)
    returns (first': Node?, rover': Node, warnings': seq<Warning>)
    requires i + 1 < |ns| && rover == ns[i] && Linked(first, Kept(ns[..i], ms) + [rover] + ns[i + 1..])
    requires Linked(second, ms) && WarnedOf(warnings, ns[..i], ms)
    requires forall n :: n in ns ==> n in region && n !in ms
    requires forall n :: n in ms ==> n !in region
    modifies region`next
    ensures first' != null && rover' == ns[i + 1] && Linked(first', Kept(ns[..i + 1], ms) + [rover'] + ns[i + 2..])
    ensures Linked(second, ms) && WarnedOf(warnings', ns[..i + 1], ms)
  {
    ghost var kept, tail := Kept(ns[..i], ms), ns[i + 1..];
    LinkedEnd(first, kept, rover, tail);
    KeptNext(ns, ms, i);
    KeptIn(ns, ms, i, region);
    assert tail == [ns[i + 1]] + ns[i + 2..];
    assert rover in ns && rover.next == tail[0];
    hide *;
    var left;
    first', left, warnings' := MergeNext(first, rover, rover.next, second, ns, ms, i, tail, warnings, region);
    rover' := rover.next;
    NextList(kept, Kept(ns[..i + 1], ms), rover, ns, i, left);
    StillLinked(first', Kept(ns[..i + 1], ms) + [rover'] + ns[i + 2..]);
  }

  lemma NextList(kept: seq<Node>, kept': seq<Node>, rover: Node, ns: seq<Node>, i: nat, left: bool)
    requires i + 1 < |ns| && kept' == kept + if left then [] else [rover]
    ensures kept' + [ns[i + 1]] + ns[i + 2..] == if left then kept + ns[i + 1..] else kept + [rover] + ns[i + 1..]
  {
    assert ns[i + 1..] == [ns[i + 1]] + ns[i + 2..];
  }

  lemma StillLinked(first: Node?, ls: seq<Node>)
    requires Linked(first, ls)
    ensures ls != [] ==> first != null
  {
  }

  /** The last cell is followed by the second list, unless it is a duplicate. */
  method MergeLast(first: Node, rover: Node, second: Node?, ghost ns: seq<Node>, ghost ms: seq<Node>,
                   warnings: seq<Warning>, ghost region: set<Node>)
    returns (first': Node?, warnings': seq<Warning>)
    requires ns != [] && rover == ns[|ns| - 1] && Linked(first, Kept(ns[..|ns| - 1], ms) + [rover] + [])
    requires Linked(second, ms) && WarnedOf(warnings, ns[..|ns| - 1], ms)
    requires forall n :: n in ns ==> n in region && n !in ms
    requires forall n :: n in ms ==> n !in region
    modifies region`next
    ensures Linked(first', Kept(ns, ms) + ms) && WarnedOf(warnings', ns, ms)
  {
    ghost var i := |ns| - 1;
    ghost var kept := Kept(ns[..i], ms);
    LinkedEnd(first, kept, rover, []);
    KeptNext(ns, ms, i);
    KeptIn(ns, ms, i, region);
    assert ns[..i + 1] == ns && ns[i + 1..] == [] && rover in ns;
    hide Kept, WarnedOf, LeftOut, Named;
    var left;
    first', left, warnings' := MergeNext(first, rover, second, second, ns, ms, i, ms, warnings, region);
    if left {
      assert Kept(ns, ms) + ms == kept + ms;
    } else {
      Append(first, kept, rover, second, ms);
      assert Kept(ns, ms) + ms == kept + [rover] + ms;
    }
  }

  method Append(first: Node?, ghost kept: seq<Node>, rover: Node, second: Node?, ghost ms: seq<Node>)
    requires Linked(first, kept + [rover] + []) && Linked(second, ms)
    requires rover !in ms && forall n :: n in ms ==> n !in kept
    modifies rover`next
    ensures Linked(first, kept + [rover] + ms)
  {
    ghost var ls, ks := kept + [rover] + [], kept + [rover] + ms;
    assert ls[|kept|] == rover;
    assert forall a :: 0 <= a < |kept| ==> kept[a] == ls[a] == ks[a];
    assert forall a :: 0 <= a < |ms| ==> ks[|kept| + 1 + a] == ms[a] && ms[a] in ms;
    rover.next := second;
  }

  /** Merges two lists in place: the cells of the first that the second does not have, then the
      second.  Every cell left out is warned of. */
  method Merge(first0: Node?, second: Node?, ghost ns: seq<Node>, ghost ms: seq<Node>)
    returns (first: Node?, warnings: seq<Warning>)
    requires Linked(first0, ns) && Linked(second, ms) && (forall n :: n in ns ==> n !in ms)
    modifies set n | n in ns :: n
    ensures Linked(first, Kept(ns, ms) + ms)
    ensures WarnedOf(warnings, ns, ms)
  {
    hide *;
    warnings := [];
    MergeStart(first0, ns, ms);
    if first0 == null {
      return second, warnings;
    }
    first := first0;
    var rover := first0;
    ghost var i, region := 0, set n | n in ns;
    while rover.next != null
      invariant i < |ns| && rover == ns[i] && first != null && Linked(first, Kept(ns[..i], ms) + [rover] + ns[i + 1..])
      invariant Linked(second, ms) && WarnedOf(warnings, ns[..i], ms)
      decreases |ns| - i
    {
      Following(first, Kept(ns[..i], ms), rover, ns[i + 1..]);
      first, rover, warnings := MergeRound(first, rover, second, ns, ms, i, warnings, region);
      i := i + 1;
    }
    Following(first, Kept(ns[..i], ms), rover, ns[i + 1..]);
    first, warnings := MergeLast(first, rover, second, ns, ms, warnings, region);
  }

  lemma MergeStart(first: Node?, ns: seq<Node>, ms: seq<Node>)
    requires Linked(first, ns)
    ensures first == null ==> Kept(ns, ms) + ms == ms && WarnedOf([], ns, ms)
    ensures first != null ==>
      ns != [] && ns[0] == first && Linked(first, Kept(ns[..0], ms) + [first] + ns[1..]) && WarnedOf([], ns[..0], ms)
  {
    if first != null {
      assert Kept(ns[..0], ms) + [first] + ns[1..] == ns;
    }
  }

  lemma Following(first: Node?, kept: seq<Node>, rover: Node, tail: seq<Node>)
    requires Linked(first, kept + [rover] + tail)
    ensures rover.next == null <==> tail == []
  {
    LinkedEnd(first, kept, rover, tail);
  }

  ghost predicate Precedes(ns: seq<Node>, x: Node, y: Node) {
    exists i, j :: 0 <= i < j < |ns| && ns[i] == x && ns[j] == y
  }

  lemma PrecedesMore(ns: seq<Node>, n: Node, x: Node, y: Node)
    requires Precedes(ns, x, y) || (x in ns && y == n)
    ensures Precedes(ns + [n], x, y)
  {
    if Precedes(ns, x, y) {
      var i, j :| 0 <= i < j < |ns| && ns[i] == x && ns[j] == y;
      assert (ns + [n])[i] == x && (ns + [n])[j] == y;
    } else {
      var i :| 0 <= i < |ns| && ns[i] == x;
      assert (ns + [n])[i] == x && (ns + [n])[|ns|] == y;
    }
  }

  /** What is kept of the first list are just the cells whose names the second does not have, in their order, and
      all the others are left out. */
  lemma {:induction false} KeptExactly(ns: seq<Node>, ms: seq<Node>)
    ensures forall n :: n in Kept(ns, ms) <==> n in ns && forall m :: m in ms ==> m.cell.name != n.cell.name
    ensures forall a, b :: 0 <= a < b < |Kept(ns, ms)| ==> Precedes(ns, Kept(ns, ms)[a], Kept(ns, ms)[b])
    ensures forall c :: c in LeftOut(ns, ms) <==>
      exists n, m :: n in ns && n.cell == c && m in ms && m.cell.name == n.cell.name
    ensures |Kept(ns, ms)| + |LeftOut(ns, ms)| == |ns|
  {
    if ns != [] {
      var k := |ns| - 1;
      var (n, before, left) := (ns[k], Kept(ns[..k], ms), LeftOut(ns[..k], ms));
      KeptExactly(ns[..k], ms);
      assert ns == ns[..k] + [n];
      forall a, b | 0 <= a < b < |Kept(ns, ms)| ensures Precedes(ns, Kept(ns, ms)[a], Kept(ns, ms)[b]) {
        PrecedesMore(ns[..k], n, Kept(ns, ms)[a], Kept(ns, ms)[b]);
      }
      LeftOutMore(ns[..k], n, ms);
    }
  }

  lemma LeftOutMore(ns: seq<Node>, n: Node, ms: seq<Node>)
    requires forall c :: c in LeftOut(ns, ms) <==>
      exists n, m :: n in ns && n.cell == c && m in ms && m.cell.name == n.cell.name
    ensures forall c :: c in LeftOut(ns + [n], ms) <==>
      exists n', m :: n' in ns + [n] && n'.cell == c && m in ms && m.cell.name == n'.cell.name
  {
    assert (ns + [n])[..|ns|] == ns && (ns + [n])[|ns|] == n;
  }

  // ----- the list of actions

  datatype ActionType = UpdateServers | NewCell | InvalidCell

  datatype Action = Action(action: ActionType, entry: CellEntry)

  ghost predicate Has(cells: seq<CellEntry>, name: string) {
    exists c :: c in cells && c.name == name
  }

  ghost predicate UniqueNames(cells: seq<CellEntry>) {
    forall i, j :: 0 <= i < j < |cells| ==> cells[i].name != cells[j].name
  }

  /** What a list says: the set of servers of every cell. */
  ghost function Table(cells: seq<CellEntry>): map<string, set<Server>> {
    if cells == [] then map[] else
    var k := |cells| - 1;
    Table(cells[..k])[cells[k].name := ServerSet(cells[k])]
  }

  ghost function ServerSet(c: CellEntry): set<Server> {
    set s | s in c.servers
  }

  /** What carrying out the actions in order does to a table. */
  ghost function Patch(t: map<string, set<Server>>, actions: seq<Action>): map<string, set<Server>>
    decreases |actions|
  {
    if actions == [] then t else Patch(PatchOne(t, actions[0]), actions[1..])
  }

  ghost function PatchOne(t: map<string, set<Server>>, a: Action): map<string, set<Server>> {
    if a.action == InvalidCell then t - {a.entry.name} else t[a.entry.name := ServerSet(a.entry)]
  }

  /** The action the old list makes necessary for a cell of the new one. */
  ghost predicate Wanted(a: Action, old_: seq<CellEntry>) {
    match a.action
    case NewCell => !Has(old_, a.entry.name)
    case UpdateServers => exists c :: c in old_ && c.name == a.entry.name && !SameSet(a.entry.servers, c.servers)
    case InvalidCell => false
  }

  /** The actions are just those that the difference makes necessary: a cell that is new, one whose servers are
      others, and one that is gone, each of them once. */
  ghost predicate Necessary(actions: seq<Action>, new_: seq<CellEntry>, old_: seq<CellEntry>) {
    && (forall c :: Action(NewCell, c) in actions <==> c in new_ && forall d :: d in old_ ==> d.name != c.name)
    && (forall c :: Action(UpdateServers, c) in actions <==>
         c in new_ && exists d :: d in old_ && d.name == c.name && !SameSet(c.servers, d.servers))
    && (forall c :: Action(InvalidCell, c) in actions <==> c in old_ && forall d :: d in new_ ==> d.name != c.name)
    && (forall x, y :: 0 <= x < y < |actions| ==> actions[x].entry.name != actions[y].entry.name)
  }

  lemma ProgressNecessary(actions: seq<Action>, new_: seq<CellEntry>, old_: seq<CellEntry>)
    requires Progress(actions, new_, |new_|, old_, |old_|)
    ensures Necessary(actions, new_, old_)
  {
    hide SameSet;
    assert new_[..|new_|] == new_ && old_[..|old_|] == old_;
    forall c ensures Action(NewCell, c) in actions <==> c in new_ && forall d :: d in old_ ==> d.name != c.name {
      assert Action(NewCell, c) in actions ==> Wanted(Action(NewCell, c), old_);
    }
    forall c
      ensures Action(UpdateServers, c) in actions <==>
        c in new_ && exists d :: d in old_ && d.name == c.name && !SameSet(c.servers, d.servers)
    {
      assert Action(UpdateServers, c) in actions ==> Wanted(Action(UpdateServers, c), old_);
    }
    forall c ensures Action(InvalidCell, c) in actions <==> c in old_ && forall d :: d in new_ ==> d.name != c.name {
    }
  }

  method FindCell(cells: seq<CellEntry>, name: string) returns (i: nat)
    ensures i <= |cells| && (i < |cells| ==> cells[i].name == name)
    ensures i == |cells| <==> !Has(cells, name)
  {
    i := 0;
    while i < |cells| && cells[i].name != name
      invariant i <= |cells| && forall k :: 0 <= k < i ==> cells[k].name != name
    {
      i := i + 1;
    }
    assert i < |cells| ==> cells[i] in cells;
  }

  /** The actions for the first `i` cells of the new list and the first `j` of the old one. */
  ghost predicate Progress(actions: seq<Action>, new_: seq<CellEntry>, i: nat, old_: seq<CellEntry>, j: nat) {
    && i <= |new_| && j <= |old_|
    && (forall a :: a in actions ==> if a.action == InvalidCell then a.entry in old_[..j] && !Has(new_, a.entry.name)
                                     else a.entry in new_[..i] && Wanted(a, old_))
    && (forall x, y :: 0 <= x < y < |actions| ==> actions[x].entry.name != actions[y].entry.name)
    && (forall k :: 0 <= k < i && !Has(old_, new_[k].name) ==> Action(NewCell, new_[k]) in actions)
    && (forall k, c :: 0 <= k < i && c in old_ && c.name == new_[k].name && !SameSet(new_[k].servers, c.servers)
          ==> Action(UpdateServers, new_[k]) in actions)
    && (forall k :: 0 <= k < j && !Has(new_, old_[k].name) ==> Action(InvalidCell, old_[k]) in actions)
  }

  lemma NoProgress(new_: seq<CellEntry>, old_: seq<CellEntry>)
    ensures Progress([], new_, 0, old_, 0)
  {
  }

  lemma ProgressOn(acts: seq<Action>, new_: seq<CellEntry>, i: nat, old_: seq<CellEntry>, more: seq<Action>)
    requires i < |new_| && Progress(acts, new_, i, old_, 0) && UniqueNames(new_)
    requires more == []
      || (|more| == 1 && more[0].entry == new_[i] && more[0].action != InvalidCell && Wanted(more[0], old_))
    requires !Has(old_, new_[i].name) ==> more == [Action(NewCell, new_[i])]
    requires forall c :: c in old_ && c.name == new_[i].name && !SameSet(new_[i].servers, c.servers) ==>
      more == [Action(UpdateServers, new_[i])]
    ensures Progress(more + acts, new_, i + 1, old_, 0)
  {
    hide Has, SameSet, Wanted;
    assert new_[..i + 1] == new_[..i] + [new_[i]] && old_[..0] == [];
    forall a | a in acts ensures a.entry in new_[..i] && a.entry.name != new_[i].name {
      var k :| 0 <= k < i && new_[..i][k] == a.entry;
      assert new_[k].name != new_[i].name;
    }
  }

  /** The actions for the cells of the new list. */
  method ActionsForNew(new_: seq<CellEntry>, old_: seq<CellEntry>) returns (acts: seq<Action>)
    ensures UniqueNames(new_) && UniqueNames(old_) ==> Progress(acts, new_, |new_|, old_, 0)
  {
    hide Progress;
    acts := [];
    NoProgress(new_, old_);
    var i := 0;
    while i < |new_|
      invariant i <= |new_| && (UniqueNames(new_) && UniqueNames(old_) ==> Progress(acts, new_, i, old_, 0))
    {
      var k := FindCell(old_, new_[i].name);
      var more := [];
      if k < |old_| {
        var same := SameServers(new_[i].servers, old_[k].servers);
        if !same {
          more := [Action(UpdateServers, new_[i])];
        }
      } else {
        more := [Action(NewCell, new_[i])];
      }
      if UniqueNames(new_) && UniqueNames(old_) {
        ProgressOn(acts, new_, i, old_, more);
      }
      acts := more + acts;
      i := i + 1;
    }
  }

  /** What must be done to get from the old list to the new one, when neither names a cell twice;
      nothing is returned if the local cell would be removed. */
  method BuildActionList(new_: seq<CellEntry>, old_: seq<CellEntry>, local: set<string>)
    returns (actions: Option<seq<Action>>)
    ensures actions.None? <==> exists c :: c in old_ && !Has(new_, c.name) && c.name in local
    ensures actions.Some? && UniqueNames(new_) && UniqueNames(old_) ==> Patch(Table(old_), actions.value) == Table(new_)
    ensures actions.Some? && UniqueNames(new_) && UniqueNames(old_) ==>
      (actions.value == [] <==> Table(old_) == Table(new_))
    ensures actions.Some? && UniqueNames(new_) && UniqueNames(old_) ==> Necessary(actions.value, new_, old_)
  {
    hide Necessary;
    var acts := ActionsForNew(new_, old_);
    var j := 0;
    while j < |old_|
      invariant j <= |old_| && (UniqueNames(new_) && UniqueNames(old_) ==> Progress(acts, new_, |new_|, old_, j))
      invariant forall k :: 0 <= k < j && !Has(new_, old_[k].name) ==> old_[k].name !in local
    {
      var k := FindCell(new_, old_[j].name);
      if k == |new_| {
        if old_[j].name in local {
          return None;
        }
        acts := [Action(InvalidCell, old_[j])] + acts;
      }
      j := j + 1;
    }
    if UniqueNames(new_) && UniqueNames(old_) {
      PatchedIsNew(acts, new_, old_);
      EmptyIffSame(acts, new_, old_);
      ProgressNecessary(acts, new_, old_);
    }
    actions := Some(acts);
  }

  // ----- the actions patch the old list into the new one

  lemma {:induction false} TableAt(cells: seq<CellEntry>)
    requires UniqueNames(cells)
    ensures forall name :: name in Table(cells) <==> Has(cells, name)
    ensures forall c :: c in cells ==> c.name in Table(cells) && Table(cells)[c.name] == ServerSet(c)
  {
    if cells != [] {
      var k := |cells| - 1;
      TableAt(cells[..k]);
      assert cells == cells[..k] + [cells[k]];
      assert cells[k] in cells;
      forall name ensures name in Table(cells) <==> Has(cells, name) {
        assert Has(cells[..k], name) || name == cells[k].name ==> Has(cells, name);
      }
    }
  }

  ghost predicate Concerned(actions: seq<Action>, name: string) {
    exists a :: a in actions && a.entry.name == name
  }

  ghost predicate Agree(t: map<string, set<Server>>, u: map<string, set<Server>>, name: string) {
    (name in t <==> name in u) && (name in t ==> t[name] == u[name])
  }

  lemma {:induction false} PatchOther(t: map<string, set<Server>>, actions: seq<Action>, name: string)
    requires !Concerned(actions, name)
    ensures Agree(Patch(t, actions), t, name)
    decreases |actions|
  {
    if actions != [] {
      assert actions[0] in actions;
      assert forall a :: a in actions[1..] ==> a in actions;
      PatchOther(PatchOne(t, actions[0]), actions[1..], name);
    }
  }

  /** Each action has its effect, whatever its place in the list. */
  lemma {:induction false} PatchAt(t: map<string, set<Server>>, actions: seq<Action>, x: nat)
    requires x < |actions|
    requires forall x, y :: 0 <= x < y < |actions| ==> actions[x].entry.name != actions[y].entry.name
    ensures Agree(Patch(t, actions), PatchOne(t, actions[x]), actions[x].entry.name)
    decreases |actions|
  {
    var name := actions[x].entry.name;
    if x == 0 {
      forall a | a in actions[1..] ensures a.entry.name != name {
        var y :| 0 <= y < |actions| - 1 && actions[1..][y] == a;
        assert a == actions[y + 1];
      }
      PatchOther(PatchOne(t, actions[0]), actions[1..], name);
    } else {
      assert actions[0].entry.name != name;
      PatchAt(PatchOne(t, actions[0]), actions[1..], x - 1);
    }
  }

  lemma SameSetIs(a: CellEntry, b: CellEntry)
    ensures SameSet(a.servers, b.servers) <==> ServerSet(a) == ServerSet(b)
  {
    if ServerSet(a) == ServerSet(b) {
      forall s | s in a.servers ensures s in b.servers {
        assert s in ServerSet(b);
      }
      forall s | s in b.servers ensures s in a.servers {
        assert s in ServerSet(a);
      }
    }
  }

  /** What a name stands for in the new list, when it needs no action. */
  lemma Unconcerned(actions: seq<Action>, new_: seq<CellEntry>, old_: seq<CellEntry>, name: string)
    requires UniqueNames(new_) && UniqueNames(old_) && Progress(actions, new_, |new_|, old_, |old_|)
    requires !Concerned(actions, name)
    ensures Agree(Table(old_), Table(new_), name)
  {
    TableAt(new_);
    TableAt(old_);
    if Has(new_, name) {
      var k :| 0 <= k < |new_| && new_[k].name == name;
      assert Action(NewCell, new_[k]) !in actions && Action(UpdateServers, new_[k]) !in actions;
      var c :| c in old_ && c.name == name;
      SameSetIs(new_[k], c);
    }
  }

  lemma AgreesAt(actions: seq<Action>, new_: seq<CellEntry>, old_: seq<CellEntry>, name: string)
    requires UniqueNames(new_) && UniqueNames(old_) && Progress(actions, new_, |new_|, old_, |old_|)
    ensures Agree(Patch(Table(old_), actions), Table(new_), name)
  {
    TableAt(new_);
    if Concerned(actions, name) {
      var x :| 0 <= x < |actions| && actions[x].entry.name == name;
      PatchAt(Table(old_), actions, x);
      assert actions[x] in actions;
    } else {
      PatchOther(Table(old_), actions, name);
      Unconcerned(actions, new_, old_, name);
    }
  }

  lemma PatchedIsNew(actions: seq<Action>, new_: seq<CellEntry>, old_: seq<CellEntry>)
    requires UniqueNames(new_) && UniqueNames(old_) && Progress(actions, new_, |new_|, old_, |old_|)
    ensures Patch(Table(old_), actions) == Table(new_)
  {
    hide Patch, Table, Progress, UniqueNames;
    var t, u := Patch(Table(old_), actions), Table(new_);
    forall name ensures name in t <==> name in u {
      AgreesAt(actions, new_, old_, name);
    }
    forall name | name in t ensures t[name] == u[name] {
      AgreesAt(actions, new_, old_, name);
    }
  }

  lemma EmptyIffSame(actions: seq<Action>, new_: seq<CellEntry>, old_: seq<CellEntry>)
    requires UniqueNames(new_) && UniqueNames(old_) && Progress(actions, new_, |new_|, old_, |old_|)
    ensures actions == [] <==> Table(old_) == Table(new_)
  {
    if actions == [] {
      PatchedIsNew(actions, new_, old_);
    } else {
      var a := actions[0];
      TableAt(new_);
      TableAt(old_);
      assert a in actions;
      if a.action == UpdateServers {
        var c :| c in old_ && c.name == a.entry.name && !SameSet(a.entry.servers, c.servers);
        SameSetIs(a.entry, c);
      }
      assert !Agree(Table(old_), Table(new_), a.entry.name);
    }
  }
}
