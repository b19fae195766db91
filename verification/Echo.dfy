/** What a whole run issues, compared with what echo mode prints. */
module Echo {
  import opened Transactions
  import opened Schedule

  ghost function Tag<V, S, P>(t: nat, cmds: seq<Command<V, S, P>>): seq<Issue<V, S, P>> {
    seq(|cmds|, i requires 0 <= i < |cmds| => Issue(t, cmds[i]))
  }

  /** The scripts of the first `k` transactions, one after the other. */
  ghost function SerialLog<V, S, P>(plan: seq<Request<V, S, P>>, k: nat): seq<Issue<V, S, P>>
    requires k <= |plan|
  {
    if k == 0 then [] else SerialLog(plan, k - 1) + Tag(k - 1, Script(plan[k - 1]))
  }

  lemma {:induction false} SerialPrefix<V, S, P>(plan: seq<Request<V, S, P>>, t: nat, k: nat)
    requires t <= k <= |plan|
    ensures SerialLog(plan, t) <= SerialLog(plan, k)
    decreases k
  {
    if t < k {
      SerialPrefix(plan, t, k - 1);
    }
  }

  /** The scripts of some transactions and the beginning of the next one's begin the serial log. */
  lemma PartOfSerial<V, S, P>(plan: seq<Request<V, S, P>>, t: nat, cmds: seq<Command<V, S, P>>)
    requires t < |plan| && cmds <= Script(plan[t])
    ensures SerialLog(plan, t) + Tag(t, cmds) <= SerialLog(plan, |plan|)
  {
    assert Tag(t, cmds) <= Tag(t, Script(plan[t]));
    SerialPrefix(plan, t + 1, |plan|);
  }

  lemma {:induction false} ProjectConcat<V, S, P>(xs: seq<Issue<V, S, P>>, ys: seq<Issue<V, S, P>>, t: nat)
    ensures Project(xs + ys, t) == Project(xs, t) + Project(ys, t)
  {
    if ys == [] {
      assert xs + ys == xs;
    } else {
      var k := |ys| - 1;
      assert (xs + ys)[..|xs + ys| - 1] == xs + ys[..k];
      ProjectConcat(xs, ys[..k], t);
    }
  }

  lemma {:induction false} ProjectTag<V, S, P>(u: nat, cmds: seq<Command<V, S, P>>, t: nat)
    ensures Project(Tag(u, cmds), t) == if t == u then cmds else []
  {
    if cmds != [] {
      var k := |cmds| - 1;
      assert Tag(u, cmds)[..k] == Tag(u, cmds[..k]);
      ProjectTag(u, cmds[..k], t);
      assert cmds[..k] + [cmds[k]] == cmds;
    }
  }

  lemma ProjectStep<V, S, P>(past: seq<Issue<V, S, P>>, u: nat, cmds: seq<Command<V, S, P>>, t: nat)
    ensures Project(past + Tag(u, cmds), t) == Project(past, t) + if t == u then cmds else []
  {
    ProjectConcat(past, Tag(u, cmds), t);
    ProjectTag(u, cmds, t);
  }

  /** The serial log takes one transaction after the other, and with what it has of each of them
      (`ProjectSerial`) it is determined. */
  lemma {:induction false} SerialInOrder<V, S, P>(plan: seq<Request<V, S, P>>, k: nat)
    requires k <= |plan|
    ensures forall i, j :: 0 <= i < j < |SerialLog(plan, k)| ==> SerialLog(plan, k)[i].tx <= SerialLog(plan, k)[j].tx
    ensures forall i :: 0 <= i < |SerialLog(plan, k)| ==> SerialLog(plan, k)[i].tx < k
  {
    if k > 0 {
      SerialInOrder(plan, k - 1);
      hide Script;
    }
  }

  lemma SerialMore<V, S, P>(plan: seq<Request<V, S, P>>, k: nat)
    requires 0 < k <= |plan|
    ensures SerialLog(plan, k) == SerialLog(plan, k - 1) + Tag(k - 1, Script(plan[k - 1]))
    ensures SerialLog(plan, 0) == []
  {
  }

  lemma NothingProjected<V, S, P>(t: nat)
    ensures Project<V, S, P>([], t) == []
  {
  }

  lemma {:induction false} ProjectSerial<V, S, P>(plan: seq<Request<V, S, P>>, k: nat, t: nat)
    requires k <= |plan|
    ensures Project(SerialLog(plan, k), t) == if t < k then Script(plan[t]) else []
  {
    hide Script;
    if k == 0 {
      NothingProjected<V, S, P>(t);
    } else {
      hide *;
      SerialMore(plan, k);
      ProjectSerial(plan, k - 1, t);
      ProjectStep(SerialLog(plan, k - 1), k - 1, Script(plan[k - 1]), t);
    }
  }

  /** An entry occurs in a log as often as its command occurs among those of its transaction. */
  lemma {:induction false} CountInProject<V, S, P>(log: seq<Issue<V, S, P>>, x: Issue<V, S, P>)
    ensures multiset(log)[x] == multiset(Project(log, x.tx))[x.cmd]
  {
    if log != [] {
      var k := |log| - 1;
      CountInProject(log[..k], x);
      assert log == log[..k] + [log[k]];
    }
  }

  lemma SameProjections<V, S, P>(xs: seq<Issue<V, S, P>>, ys: seq<Issue<V, S, P>>)
    requires forall t: nat :: Project(xs, t) == Project(ys, t)
    ensures multiset(xs) == multiset(ys)
  {
    forall x | x in multiset(xs) || x in multiset(ys) ensures multiset(xs)[x] == multiset(ys)[x] {
      CountInProject(xs, x);
      CountInProject(ys, x);
    }
    assert multiset(xs) <= multiset(ys) <= multiset(xs);
  }

  lemma {:induction false} ProjectBeyond<V, S, P>(log: seq<Issue<V, S, P>>, t: nat)
    requires forall i :: 0 <= i < |log| ==> log[i].tx != t
    ensures Project(log, t) == []
  {
    if log != [] {
      ProjectBeyond(log[..|log| - 1], t);
    }
  }

  /** A run that empties the list issues exactly the commands of the serial log, each as often, and
      those of one transaction in the same order; only the interleaving is its own. */
  lemma DrainedRunIssuesAll<V, S, P>(plan: seq<Request<V, S, P>>, n: int, place: map<V, P>, evs: seq<Event>)
    requires Run(plan, Start(plan, n, place), evs)
    requires After(plan, Start(plan, n, place), evs).todo == []
    ensures var log := After(plan, Start(plan, n, place), evs).log;
      && multiset(log) == multiset(SerialLog(plan, |plan|))
      && forall t :: 0 <= t < |plan| ==>
           var r := plan[t];
           Project(log, t) == [Move(r.vol, r.sfrom, r.pfrom, r.sto, r.pto)]
                              + if r.bkexist then [Backup(r.vol)] else []
  {
    hide *;
    forall t | 0 <= t < |plan|
      ensures var r := plan[t];
        Script(r) == [Move(r.vol, r.sfrom, r.pfrom, r.sto, r.pto)] + if r.bkexist then [Backup(r.vol)] else []
    {
      ScriptIs(plan[t]);
    }
    var e := After(plan, Start(plan, n, place), evs);
    StartInv(plan, n, place);
    Safety(plan, n, Start(plan, n, place), evs);
    EmptyLog(plan, n, e);
    forall t: nat ensures Project(e.log, t) == Project(SerialLog(plan, |plan|), t) {
      ProjectSerial(plan, |plan|, t);
      if t >= |plan| {
        ProjectBeyond(e.log, t);
      }
    }
    SameProjections(e.log, SerialLog(plan, |plan|));
  }

  lemma ScriptIs<V, S, P>(r: Request<V, S, P>)
    ensures Script(r) == [Move(r.vol, r.sfrom, r.pfrom, r.sto, r.pto)] + if r.bkexist then [Backup(r.vol)] else []
  {
  }

  lemma EmptyLog<V, S, P>(plan: seq<Request<V, S, P>>, n: int, e: Exec<V, S, P>)
    requires Inv(plan, n, e) && e.todo == []
    ensures forall t :: 0 <= t < |plan| ==> Project(e.log, t) == Script(plan[t])
    ensures forall i :: 0 <= i < |e.log| ==> e.log[i].tx < |plan|
  {
    hide Project, Script;
    forall t | 0 <= t < |plan| ensures Project(e.log, t) == Script(plan[t]) {
      assert e.stage[t] == Terminal;
    }
  }

  /** After the failure of a child, the end of the time or an interrupt nothing more is issued. */
  lemma {:induction false} ShutdownIssuesNothing<V, S, P>(plan: seq<Request<V, S, P>>, e: Exec<V, S, P>,
                                                          evs: seq<Event>)
    requires Run(plan, e, evs)
    requires e.shutdown || (evs != [] && (evs[0] == Interrupt || (evs[0].Finish? && !evs[0].ok)))
    ensures After(plan, e, evs).shutdown
    ensures After(plan, e, evs).log == e.log
    decreases evs
  {
    if evs != [] {
      ShutdownIssuesNothing(plan, Next(plan, e, evs[0]), evs[1..]);
    }
  }
}
