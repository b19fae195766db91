/** The planner's books: free space, volume counts, volume lists and homes, and what a planned move
    does to them. */
module Ledger {
  import opened Transactions
  import opened Cell
  import Outcome

  datatype Account = Account(free: int, nvols: int, vols: seq<Volume>)

  datatype Books = Books(part: map<Partition, Account>, home: map<Volume, Partition>)

  /** A list without the first occurrence of an element. */
  ghost function Unthread(vs: seq<Volume>, v: Volume): seq<Volume>
    requires v in vs
  {
    if vs[0] == v then vs[1..] else [vs[0]] + Unthread(vs[1..], v)
  }

  ghost predicate Legal(b: Books, r: Job) {
    && r.pfrom in b.part && r.pto in b.part && r.pfrom != r.pto
    && r.vol in b.home && b.home[r.vol] == r.pfrom && r.vol in b.part[r.pfrom].vols
    && r.sfrom == r.pfrom.who && r.sto == r.pto.who && r.bkexist == r.vol.bkexist
  }

  /** One move: space is given back and taken, and the volume goes to the head of the other list. */
  ghost function Apply(b: Books, r: Job): Books
    requires Legal(b, r)
  {
    var p, q := b.part[r.pfrom], b.part[r.pto];
    Books(b.part[r.pfrom := Account(p.free + r.vol.size, p.nvols - 1, Unthread(p.vols, r.vol))]
                [r.pto := Account(q.free - r.vol.size, q.nvols + 1, [r.vol] + q.vols)],
          b.home[r.vol := r.pto])
  }

  ghost predicate LegalRun(b: Books, moves: seq<Job>)
    decreases moves, 0
  {
    moves == [] ||
    var k := |moves| - 1;
    LegalRun(b, moves[..k]) && Legal(Replay(b, moves[..k]), moves[k])
  }

  ghost function Replay(b: Books, moves: seq<Job>): Books
    requires LegalRun(b, moves)
    decreases moves, 1
  {
    if moves == [] then b else Apply(Replay(b, moves[..|moves| - 1]), moves[|moves| - 1])
  }

  /** Every volume is on exactly one list, once, and that is the list of its home. */
  ghost predicate Ok(b: Books) {
    && (forall v :: v in b.home ==> b.home[v] in b.part && v in b.part[b.home[v]].vols)
    && (forall p, v :: p in b.part && v in b.part[p].vols ==> v in b.home && b.home[v] == p)
    && (forall p :: p in b.part ==> Once(b.part[p].vols))
  }

  ghost predicate Once(vs: seq<Volume>) {
    forall i, j :: 0 <= i < j < |vs| ==> vs[i] != vs[j]
  }

  ghost function Total(vs: seq<Volume>): nat {
    if vs == [] then 0 else vs[0].size + Total(vs[1..])
  }

  /** Free space and listed volumes together, and the volumes counted but not listed. */
  ghost function SpaceHeld(a: Account): int {
    a.free + Total(a.vols)
  }

  ghost function Unlisted(a: Account): int {
    a.nvols - |a.vols|
  }

  ghost predicate SameTotals(b: Books, b': Books) {
    && b.part.Keys == b'.part.Keys && b.home.Keys == b'.home.Keys
    && forall p :: p in b.part ==>
         SpaceHeld(b.part[p]) == SpaceHeld(b'.part[p]) && Unlisted(b.part[p]) == Unlisted(b'.part[p])
  }

  lemma {:induction false} UnthreadFacts(vs: seq<Volume>, v: Volume)
    requires v in vs
    ensures |Unthread(vs, v)| == |vs| - 1
    ensures Total(Unthread(vs, v)) == Total(vs) - v.size
    ensures multiset(Unthread(vs, v)) == multiset(vs) - multiset{v}
  {
    assert vs == [vs[0]] + vs[1..];
    if vs[0] != v {
      UnthreadFacts(vs[1..], v);
    }
  }

  lemma {:induction false} UnthreadOnce(vs: seq<Volume>, v: Volume)
    requires v in vs && Once(vs)
    ensures Once(Unthread(vs, v)) && v !in Unthread(vs, v)
    ensures forall w | w in Unthread(vs, v) :: w in vs && w != v
    ensures forall w | w in vs && w != v :: w in Unthread(vs, v)
  {
    assert vs == [vs[0]] + vs[1..];
    if vs[0] == v {
      assert forall i :: 0 <= i < |vs[1..]| ==> vs[1..][i] == vs[i + 1];
    } else {
      UnthreadOnce(vs[1..], v);
      assert vs[0] !in vs[1..];
    }
  }

  lemma ApplyKeepsOk(b: Books, r: Job)
    requires Ok(b) && Legal(b, r)
    ensures Ok(Apply(b, r))
  {
    var b', v, from, to := Apply(b, r), r.vol, b.part[r.pfrom].vols, b.part[r.pto].vols;
    UnthreadOnce(from, v);
    assert v !in to;
    assert b'.part[r.pfrom].vols == Unthread(from, v) && b'.part[r.pto].vols == [v] + to;
    assert forall w :: w in [v] + to <==> w == v || w in to;
    assert forall p :: p in b.part && p != r.pfrom && p != r.pto ==> b'.part[p] == b.part[p];
    forall p, w | p in b'.part && w in b'.part[p].vols ensures w in b'.home && b'.home[w] == p {
      if p == r.pfrom {
        assert w in Unthread(from, v);
      } else if p == r.pto {
        assert w in [v] + to;
      } else {
        assert w in b.part[p].vols;
      }
    }
    forall w | w in b'.home ensures b'.home[w] in b'.part && w in b'.part[b'.home[w]].vols {
      if w != v {
        assert w in b.part[b.home[w]].vols;
      }
    }
  }

  lemma ApplyKeepsTotals(b: Books, r: Job)
    requires Legal(b, r)
    ensures SameTotals(b, Apply(b, r))
  {
    UnthreadFacts(b.part[r.pfrom].vols, r.vol);
    var q := b.part[r.pto].vols;
    assert ([r.vol] + q)[1..] == q;
  }

  /** Replaying any legal list of moves conserves space and counts, keeps every volume on the list
      of its home, and places the volumes as the serial plan says. */
  lemma {:induction false} ReplayKeeps(b: Books, moves: seq<Job>)
    requires Ok(b) && LegalRun(b, moves)
    ensures Ok(Replay(b, moves)) && SameTotals(b, Replay(b, moves))
    ensures Replay(b, moves).home == Outcome.SerialPlace(moves, b.home)
    decreases moves
  {
    if moves != [] {
      var k := |moves| - 1;
      ReplayKeeps(b, moves[..k]);
      ApplyKeepsOk(Replay(b, moves[..k]), moves[k]);
      ApplyKeepsTotals(Replay(b, moves[..k]), moves[k]);
    }
  }

  lemma {:induction false} LegalPrefix(b: Books, moves: seq<Job>, t: nat)
    requires LegalRun(b, moves) && t <= |moves|
    ensures LegalRun(b, moves[..t])
    decreases moves
  {
    if t == |moves| {
      assert moves[..t] == moves;
    } else {
      var k := |moves| - 1;
      LegalPrefix(b, moves[..k], t);
      assert moves[..k][..t] == moves[..t];
    }
  }

  /** So a legal list of moves is a serial plan for the executor. */
  lemma LegalIsConsistent(b: Books, moves: seq<Job>)
    requires Ok(b) && LegalRun(b, moves)
    ensures Outcome.Consistent(moves, b.home)
  {
    forall t | 0 <= t < |moves|
      ensures moves[t].vol in Outcome.SerialPlace(moves[..t], b.home)
        && Outcome.SerialPlace(moves[..t], b.home)[moves[t].vol] == moves[t].pfrom
    {
      LegalPrefix(b, moves, t + 1);
      assert moves[..t + 1][..t] == moves[..t];
      ReplayKeeps(b, moves[..t]);
    }
  }

  lemma ReplayAppend(b: Books, moves: seq<Job>, r: Job)
    requires LegalRun(b, moves) && Legal(Replay(b, moves), r)
    ensures LegalRun(b, moves + [r]) && Replay(b, moves + [r]) == Apply(Replay(b, moves), r)
  {
    assert (moves + [r])[..|moves|] == moves;
  }
}
