/** The chain of an agent: its partitions, doubly linked, in descending order of occupancy. */
module Chain {
  import opened Cell
  import opened Occupancy

  /** The agent's wrapper of a partition: the volumes it may still move, largest first, and a cursor
      into them.  A cursor at the end of the list stands for the null pointer. */
  class PartNode {
    const part: Partition
    var vols: seq<Volume>
    var cursor: nat
    var next: PartNode?
    var prev: PartNode?

    constructor (part: Partition)
      ensures this.part == part && vols == [] && cursor == 0
    {
      this.part := part;
      vols, cursor, next, prev := [], 0, null, null;
    }
  }

  ghost predicate Distinct<T>(s: seq<T>) {
    forall i, j :: 0 <= i < j < |s| ==> s[i] != s[j]
  }

  ghost function Parts(ns: seq<PartNode>): set<Partition> {
    set n | n in ns :: n.part
  }

  ghost predicate Sorted(ns: seq<PartNode>)
    reads Parts(ns)`free
  {
    forall i, j :: 0 <= i < j < |ns| ==> Occ(ns[i].part) >= Occ(ns[j].part)
  }

  /** Where a node belongs: before the first element that does not exceed it. */
  ghost predicate Slot(ns: seq<PartNode>, n: PartNode, k: nat)
    reads Parts(ns)`free, n.part`free
  {
    && k <= |ns| && (forall i :: 0 <= i < k ==> Occ(ns[i].part) > Occ(n.part))
    && (k < |ns| ==> Occ(ns[k].part) <= Occ(n.part))
  }

  ghost function InsertAt<T>(s: seq<T>, k: nat, x: T): seq<T>
    requires k <= |s|
  {
    s[..k] + [x] + s[k..]
  }

  ghost function RemoveAt<T>(s: seq<T>, k: nat): seq<T>
    requires k < |s|
  {
    s[..k] + s[k + 1..]
  }

  lemma InsertedAt<T>(s: seq<T>, k: nat, x: T)
    requires k <= |s|
    ensures |InsertAt(s, k, x)| == |s| + 1 && InsertAt(s, k, x)[k] == x
    ensures forall i {:trigger InsertAt(s, k, x)[i]} :: 0 <= i <= |s| && i != k ==>
      InsertAt(s, k, x)[i] == s[if i < k then i else i - 1]
    ensures Distinct(s) && x !in s ==> Distinct(InsertAt(s, k, x))
  {
  }

  lemma RemovedAt<T>(s: seq<T>, k: nat)
    requires k < |s|
    ensures |RemoveAt(s, k)| == |s| - 1
    ensures forall i {:trigger RemoveAt(s, k)[i]} :: 0 <= i < |s| - 1 ==>
      RemoveAt(s, k)[i] == s[if i < k then i else i + 1]
    ensures Distinct(s) ==> Distinct(RemoveAt(s, k))
  {
  }

  class PartChain {
    var head: PartNode?
    var tail: PartNode?
    ghost var nodes: seq<PartNode>

    ghost predicate Linked()
      reads `head, `tail, `nodes, nodes`next, nodes`prev
    {
      && Distinct(nodes)
      && head == (if nodes == [] then null else nodes[0])
      && tail == (if nodes == [] then null else nodes[|nodes| - 1])
      && (forall i {:trigger nodes[i].next} :: 0 <= i < |nodes| ==>
           nodes[i].next == if i + 1 < |nodes| then nodes[i + 1] else null)
      && (forall i {:trigger nodes[i].prev} :: 0 <= i < |nodes| ==>
           nodes[i].prev == if i > 0 then nodes[i - 1] else null)
    }

    constructor ()
      ensures Linked() && nodes == []
    {
      head, tail, nodes := null, null, [];
    }

    /** Inserts a node at its place. */
    method Insert(add: PartNode) returns (ghost k: nat)
      requires Linked() && add !in nodes
      modifies `head, `tail, `nodes, nodes`next, nodes`prev, add`next, add`prev
      ensures Linked() && Slot(old(nodes), add, k) && nodes == InsertAt(old(nodes), k, add)
    {
      var cur, last;
      cur, last, k := FindSlot(add);
      Splice(add, last, cur, k);
    }

    /** Walks to the first element that does not exceed the new one, remembering the one before. */
    method FindSlot(add: PartNode) returns (cur: PartNode?, last: PartNode?, ghost i: nat)
      requires Linked() && add !in nodes
      modifies add`prev
      ensures Linked() && i <= |nodes|
      ensures cur == if i < |nodes| then nodes[i] else null
      ensures last == if i > 0 then nodes[i - 1] else null
      ensures add.prev == if 0 < i == |nodes| then nodes[i - 1] else null
      ensures forall j :: 0 <= j < i ==> Occ(nodes[j].part) > Occ(add.part)
      ensures i < |nodes| ==> Occ(nodes[i].part) <= Occ(add.part)
    {
      cur, last, i := head, null, 0;
      add.prev := null;
      while cur != null && Occ(cur.part) > Occ(add.part)
        invariant 0 <= i <= |nodes| && Linked()
        invariant cur == if i < |nodes| then nodes[i] else null
        invariant last == if i > 0 then nodes[i - 1] else null
        invariant add.prev == if 0 < i == |nodes| then nodes[i - 1] else null
        invariant forall j :: 0 <= j < i ==> Occ(nodes[j].part) > Occ(add.part)
        decreases |nodes| - i
      {
        if cur.next == null {
          add.prev := cur;
        }
        last, cur := cur, cur.next;
        i := i + 1;
      }
    }

    /** Threads a node onto both chains between two neighbours. */
    method Splice(add: PartNode, last: PartNode?, cur: PartNode?, ghost i: nat)
      requires Linked() && add !in nodes && i <= |nodes|
      requires cur == if i < |nodes| then nodes[i] else null
      requires last == if i > 0 then nodes[i - 1] else null
      requires add.prev == if 0 < i == |nodes| then nodes[i - 1] else null
      modifies `head, `tail, `nodes, nodes`next, nodes`prev, add`next, add`prev
      ensures Linked() && nodes == InsertAt(old(nodes), i, add)
    {
      hide InsertAt;
      InsertedAt(nodes, i, add);
      add.next := cur;
      if last == null {
        head := add;
      } else {
        last.next := add;
      }
      if add.next != null {
        add.prev := add.next.prev;
        add.next.prev := add;
      } else {
        tail := add;
      }
      nodes := InsertAt(nodes, i, add);
    }

    /** Takes a node out. */
    method Delete(n: PartNode, ghost k: nat)
      requires Linked() && k < |nodes| && nodes[k] == n
      modifies `head, `tail, `nodes, nodes`next, nodes`prev
      ensures Linked() && nodes == RemoveAt(old(nodes), k)
    {
      hide RemoveAt;
      RemovedAt(nodes, k);
      assert n.prev != null ==> n.prev == nodes[k - 1];
      assert n.next != null ==> n.next == nodes[k + 1];
      if n.prev != null {
        n.prev.next := n.next;
      } else {
        head := n.next;
      }
      if n.next != null {
        n.next.prev := n.prev;
      } else {
        tail := n.prev;
      }
      nodes := RemoveAt(nodes, k);
    }

    /** Takes two nodes out and puts them back at their places. */
    method Resort(m: PartNode, n: PartNode, ghost region: set<PartNode>)
      requires Linked() && m in nodes && n in nodes && m != n && SortedBut(nodes, m, n)
      requires forall x :: x in nodes <==> x in region
      modifies `head, `tail, `nodes, region`next, region`prev
      ensures Linked() && Sorted(nodes)
      ensures forall x :: x in nodes <==> x in region
    {
      ghost var i :| 0 <= i < |nodes| && nodes[i] == m;
      RemoveMembers(nodes, i);
      ghost var j :| 0 <= j < |RemoveAt(nodes, i)| && RemoveAt(nodes, i)[j] == n;
      TakeOut(m, n, i, j);
      PutBack(m, region);
      PutBack(n, region);
    }

    lemma LinkedDistinct()
      requires Linked()
      ensures Distinct(nodes)
    {
    }

    method TakeOut(m: PartNode, n: PartNode, ghost i: nat, ghost j: nat)
      requires Linked() && i < |nodes| && nodes[i] == m && j < |RemoveAt(nodes, i)| && RemoveAt(nodes, i)[j] == n
      requires SortedBut(nodes, m, n)
      modifies `head, `tail, `nodes, nodes`next, nodes`prev
      ensures Linked() && Sorted(nodes)
      ensures forall x :: x in nodes <==> x in old(nodes) && x != m && x != n
    {
      hide RemoveAt, PartChain.Linked;
      LinkedDistinct();
      RemoveMembers(nodes, i);
      RemoveMembers(RemoveAt(nodes, i), j);
      Delete(m, i);
      assert forall a :: 0 <= a < |nodes| ==> nodes[a] in nodes;
      Delete(n, j);
      RemoveMembers(old(nodes), i);
      RemoveMembers(RemoveAt(old(nodes), i), j);
      RemoveBothSorted(old(nodes), i, j, n);
    }

    method PutBack(n: PartNode, ghost region: set<PartNode>)
      requires Linked() && Sorted(nodes) && n !in nodes && n in region && forall x :: x in nodes ==> x in region
      modifies `head, `tail, `nodes, region`next, region`prev
      ensures Linked() && Sorted(nodes)
      ensures forall x :: x in nodes <==> x in old(nodes) || x == n
    {
      ghost var k := Insert(n);
      InsertMembers(old(nodes), k, n);
      InsertSorted(old(nodes), n, k);
    }
  }

  /** Inserting at the slot keeps the order. */
  lemma InsertSorted(ns: seq<PartNode>, add: PartNode, k: nat)
    requires Sorted(ns) && Slot(ns, add, k)
    ensures Sorted(InsertAt(ns, k, add))
  {
    var ms := InsertAt(ns, k, add);
    InsertedAt(ns, k, add);
    hide InsertAt;
    forall i, j | 0 <= i < j < |ms| ensures Occ(ms[i].part) >= Occ(ms[j].part) {
      var i', j' := if i <= k then i else i - 1, if j <= k then j else j - 1;
      assert i == k || ms[i] == ns[i'];
      assert j == k || ms[j] == ns[j'];
      if i == k {
        assert Occ(ns[k].part) >= Occ(ns[j'].part);
      }
    }
  }

  /** Two nodes may be out of order. */
  ghost predicate SortedBut(ns: seq<PartNode>, m: PartNode, n: PartNode)
    reads Parts(ns)`free
  {
    forall i, j :: 0 <= i < j < |ns| && ns[i] !in {m, n} && ns[j] !in {m, n} ==> Occ(ns[i].part) >= Occ(ns[j].part)
  }

  lemma RemoveMembers<T>(s: seq<T>, k: nat)
    requires k < |s| && Distinct(s)
    ensures Distinct(RemoveAt(s, k))
    ensures forall x :: x in RemoveAt(s, k) <==> x in s && x != s[k]
  {
    var t := RemoveAt(s, k);
    RemovedAt(s, k);
    hide RemoveAt;
    forall x | x in s && x != s[k] ensures x in t {
      var i :| 0 <= i < |s| && s[i] == x;
      assert t[if i < k then i else i - 1] == x;
    }
    forall x | x in t ensures x in s && x != s[k] {
      var i :| 0 <= i < |t| && t[i] == x;
      assert x == s[if i < k then i else i + 1];
    }
  }

  lemma InsertMembers<T>(s: seq<T>, k: nat, x: T)
    requires k <= |s|
    ensures forall y :: y in InsertAt(s, k, x) <==> y in s || y == x
  {
    var t := InsertAt(s, k, x);
    InsertedAt(s, k, x);
    hide InsertAt;
    forall y | y in s ensures y in t {
      var i :| 0 <= i < |s| && s[i] == y;
      assert t[if i < k then i else i + 1] == y;
    }
    assert t[k] == x;
  }

  lemma RemoveSortedBut(ns: seq<PartNode>, i: nat, m: PartNode, n: PartNode)
    requires i < |ns| && SortedBut(ns, m, n)
    ensures SortedBut(RemoveAt(ns, i), m, n)
  {
    RemovedAt(ns, i);
    hide RemoveAt;
  }

  lemma RemoveBothSorted(ns: seq<PartNode>, i: nat, j: nat, n: PartNode)
    requires i < |ns| && Distinct(ns) && SortedBut(ns, ns[i], n)
    requires j < |RemoveAt(ns, i)| && RemoveAt(ns, i)[j] == n
    ensures Sorted(RemoveAt(RemoveAt(ns, i), j))
  {
    hide RemoveAt, Distinct;
    var ms := RemoveAt(ns, i);
    RemoveMembers(ns, i);
    RemoveMembers(ms, j);
    RemoveSortedBut(ns, i, ns[i], n);
    RemoveSortedBut(ms, j, ns[i], n);
    assert forall a :: 0 <= a < |RemoveAt(ms, j)| ==> RemoveAt(ms, j)[a] in RemoveAt(ms, j);
  }
}
