/** The file server monitor: a warning counter kept up to date one warning at a time, and labels that
    are switched between two modes. */
module Sentinel {
  import opened Integers

  const NUM_DISKS: nat := 10
  const SERVER_NAME: nat := 0
  const DISK_1: nat := 3
  const NUM_LABELS: nat := 13
  const LONG_MAX: int := 0x7fff_ffff_ffff_ffff

  datatype Mode = MODE_CLEAR | MODE_WARN

  datatype Warning = TooFull | TooFewBlocks

  datatype Thresholds = Thresholds(percentFull: int, blocksAvail: int)

  /** A disk: its two warning bits, what was last seen, and its thresholds. */
  datatype Disk =
    Disk(tooFull: bool, tooFewBlocks: bool, lastPercentFull: int, lastBlocksAvail: int, thresholds: Thresholds)

  /** What a probe says of a disk; a slot without a name is not in use. */
  datatype DiskData = DiskData(name: string, totalBlocks: int, blocksAvailable: int)

  /** A probe of a server: no answer, or the data of its disks. */
  datatype Probe = NoAnswer | Answer(disks: seq<DiskData>)

  ghost predicate ProbeOk(p: Probe) {
    && (p.Answer? ==> |p.disks| == NUM_DISKS)
    && (p.Answer? ==> forall k :: 0 <= k < NUM_DISKS && p.disks[k].name != "" ==> p.disks[k].totalBlocks > 0)
  }

  function PercentFull(data: DiskData): int
    requires data.totalBlocks > 0
  {
    Truncated(100 * (data.totalBlocks - data.blocksAvailable), data.totalBlocks)
  }

  lemma Truncates(x: int, t: int, p: int)
    requires t > 0
    ensures Truncated(x, t) >= p <==> if p > 0 then x >= p * t else x > (p - 1) * t
  {
    if x >= 0 {
      Divides(x, t, p);
      if p <= 0 {
        assert (1 - p) * t > 0;
        assert (p - 1) * t == -((1 - p) * t);
      }
    } else {
      Divides(-x, t, 1 - p);
      assert (p - 1) * t == -((1 - p) * t);
      if p > 0 {
        assert p * t > 0;
      }
    }
  }

  lemma Divides(x: nat, t: int, p: int)
    requires t > 0
    ensures x / t >= p <==> x >= p * t
  {
    var q := x / t;
    Quotient(x, t);
    if q >= p {
      Grows(p, q, t);
    } else {
      Grows(q + 1, p, t);
    }
  }

  lemma Grows(a: int, b: int, t: int)
    requires a <= b && t > 0
    ensures a * t <= b * t
  {
    assert (b - a) * t >= 0;
    assert (b - a) * t == b * t - a * t;
  }

  lemma Quotient(x: nat, t: int)
    requires t > 0
    ensures (x / t) * t <= x < (x / t + 1) * t
  {
    assert x == (x / t) * t + x % t;
    assert (x / t + 1) * t == (x / t) * t + t;
  }

  /** The percentage is at a threshold exactly when a hundred times the used blocks are at so many times all
      blocks; the division loses the fraction of what is above 0, and of what is below. */
  lemma FullExactly(data: DiskData, p: int)
    requires data.totalBlocks > 0
    ensures PercentFull(data) >= p <==>
      var used := 100 * (data.totalBlocks - data.blocksAvailable);
      if p > 0 then used >= p * data.totalBlocks else used > (p - 1) * data.totalBlocks
  {
    hide Truncated;
    Truncates(100 * (data.totalBlocks - data.blocksAvailable), data.totalBlocks, p);
  }

  // ----- what the counter must be

  function Bits(d: Disk): nat {
    (if d.tooFull then 1 else 0) + (if d.tooFewBlocks then 1 else 0)
  }

  ghost function BitSum(ds: seq<Disk>): nat {
    if ds == [] then 0 else BitSum(ds[..|ds| - 1]) + Bits(ds[|ds| - 1])
  }

  lemma {:induction false} BitSumUpdate(ds: seq<Disk>, k: nat, d: Disk)
    requires k < |ds|
    ensures BitSum(ds[k := d]) == BitSum(ds) - Bits(ds[k]) + Bits(d)
  {
    var n := |ds| - 1;
    if k < n {
      BitSumUpdate(ds[..n], k, d);
      assert ds[k := d][..n] == ds[..n][k := d];
    } else {
      assert ds[k := d][..n] == ds[..n];
    }
  }

  lemma {:induction false} NoBits(ds: seq<Disk>)
    requires forall k :: 0 <= k < |ds| ==> Bits(ds[k]) == 0
    ensures BitSum(ds) == 0
  {
    if ds != [] {
      NoBits(ds[..|ds| - 1]);
    }
  }

  /** A monitored server. */
  class Monitored {
    var down: bool
    const disks: array<Disk>
    const modes: array<Mode>

    constructor (thresholds: seq<Thresholds>)
      requires |thresholds| == NUM_DISKS
      ensures Valid() && !down && fresh(disks) && fresh(modes) && Weight() == 0
    {
      down := false;
      disks := new Disk[NUM_DISKS](
        i requires 0 <= i < NUM_DISKS => Disk(false, false, LONG_MAX, LONG_MAX, thresholds[i]));
      modes := new Mode[NUM_LABELS](i => MODE_CLEAR);
      new;
      NoBits(disks[..]);
    }

    /** A server that is down has no disk warnings; a disk's label warns just when the server is down or
        the disk has a warning, and the other labels when the server is down. */
    ghost predicate Valid()
      reads this, disks, modes
    {
      && disks.Length == NUM_DISKS && modes.Length == NUM_LABELS
      && (down ==> forall k :: 0 <= k < NUM_DISKS ==> Bits(disks[k]) == 0)
      && (forall k :: 0 <= k < NUM_DISKS ==> (modes[DISK_1 + k] == MODE_WARN <==> down || Bits(disks[k]) > 0))
      && (forall k :: 0 <= k < DISK_1 ==> (modes[k] == MODE_WARN <==> down))
    }

    /** Its warnings, counted. */
    ghost function Weight(): nat
      reads this, disks
    {
      (if down then 1 else 0) + BitSum(disks[..])
    }
  }

  /** What checking a disk makes of it. */
  ghost function Checked(d: Disk, data: DiskData): Disk
    requires data.name != "" ==> data.totalBlocks > 0
  {
    if data.name == "" then d
    else Disk(PercentFull(data) >= d.thresholds.percentFull, data.blocksAvailable < d.thresholds.blocksAvail,
              PercentFull(data), data.blocksAvailable, d.thresholds)
  }

  /** How many warnings are new. */
  function Raised(d: Disk, d': Disk): nat {
    (if !d.tooFull && d'.tooFull then 1 else 0) + (if !d.tooFewBlocks && d'.tooFewBlocks then 1 else 0)
  }

  ghost function RaisedSum(ds: seq<Disk>, ds': seq<Disk>): nat
    requires |ds| == |ds'|
  {
    if ds == [] then 0
    else RaisedSum(ds[..|ds| - 1], ds'[..|ds| - 1]) + Raised(ds[|ds| - 1], ds'[|ds| - 1])
  }

  ghost function Cleared(d: Disk): Disk {
    Disk(false, false, LONG_MAX, LONG_MAX, d.thresholds)
  }

  /** What a probe makes of a disk of a server. */
  ghost function DiskAfter(down: bool, d: Disk, p: Probe, k: nat): Disk
    requires ProbeOk(p) && k < NUM_DISKS
  {
    match p
    case NoAnswer => if down then d else Cleared(d)
    case Answer(data) => Checked(d, data[k])
  }

  /** What a probe makes of a server: it is down just when there was no answer, and its disks have the
      warnings the data calls for. */
  ghost predicate Follows(down: bool, ds: seq<Disk>, p: Probe, down': bool, ds': seq<Disk>) {
    && ProbeOk(p) && |ds| == |ds'| == NUM_DISKS && down' == p.NoAnswer?
    && forall k :: 0 <= k < NUM_DISKS ==> ds'[k] == DiskAfter(down, ds[k], p, k)
  }

  /** The warnings of a disk that an answer names are those its numbers call for; other disks keep theirs, and
      without an answer there are none. */
  lemma FollowsMeans(down: bool, ds: seq<Disk>, p: Probe, down': bool, ds': seq<Disk>, k: nat)
    requires Follows(down, ds, p, down', ds') && k < NUM_DISKS
    requires down ==> Bits(ds[k]) == 0
    ensures down' <==> p == NoAnswer
    ensures ds'[k].thresholds == ds[k].thresholds
    ensures p.NoAnswer? ==> !ds'[k].tooFull && !ds'[k].tooFewBlocks
    ensures p.Answer? && p.disks[k].name == "" ==> ds'[k] == ds[k]
    ensures p.Answer? && p.disks[k].name != "" ==>
      var (data, limits) := (p.disks[k], ds[k].thresholds);
      var used := 100 * (data.totalBlocks - data.blocksAvailable);
      && (ds'[k].tooFewBlocks <==> data.blocksAvailable < limits.blocksAvail)
      && (ds'[k].tooFull <==>
           if limits.percentFull > 0 then used >= limits.percentFull * data.totalBlocks
           else used > (limits.percentFull - 1) * data.totalBlocks)
  {
    assert ds'[k] == DiskAfter(down, ds[k], p, k);
    if p.Answer? && p.disks[k].name != "" {
      FullExactly(p.disks[k], ds[k].thresholds.percentFull);
    }
    hide PercentFull;
  }

  ghost function Which(tooFull: bool, tooFewBlocks: bool): (ws: set<Warning>)
    ensures |ws| == (if tooFull then 1 else 0) + (if tooFewBlocks then 1 else 0)
  {
    if tooFull && tooFewBlocks then {TooFull, TooFewBlocks}
    else if tooFull then {TooFull}
    else if tooFewBlocks then {TooFewBlocks}
    else {}
  }

  /** Counted are the warnings that a disk has, and new are those that it has and had not. */
  lemma RaisedExactly(d: Disk, d': Disk)
    ensures var (had, has) := (Which(d.tooFull, d.tooFewBlocks), Which(d'.tooFull, d'.tooFewBlocks));
      Raised(d, d') == |has - had| && Bits(d') == |has|
  {
    var (had, has) := (Which(d.tooFull, d.tooFewBlocks), Which(d'.tooFull, d'.tooFewBlocks));
    var raised := Which(!d.tooFull && d'.tooFull, !d.tooFewBlocks && d'.tooFewBlocks);
    forall w ensures w in has - had <==> w in raised {
      match w
      case TooFull =>
      case TooFewBlocks =>
    }
    assert has - had == raised;
  }

  /** The warnings that are new: the server being down, or those of its disks. */
  ghost function NewWarnings(down: bool, ds: seq<Disk>, p: Probe, ds': seq<Disk>): nat
    requires |ds| == |ds'|
  {
    if p.NoAnswer? then (if down then 0 else 1) else RaisedSum(ds, ds')
  }

  class Monitor {
    const servers: seq<Monitored>
    var warnCount: int
    var newTrouble: nat

    constructor (servers: seq<Monitored>)
      requires forall i, j :: 0 <= i < j < |servers| ==> Apart(servers[i], servers[j])
      requires forall i :: 0 <= i < |servers| ==> servers[i].Valid() && servers[i].Weight() == 0
      ensures Valid() && this.servers == servers && newTrouble == 0
    {
      this.servers := servers;
      warnCount, newTrouble := 0, 0;
      new;
      SumZero(Weights());
    }

    /** The counter is the number of servers that are down and of the disk warnings of the others. */
    ghost predicate Valid()
      reads this`warnCount, servers, set s | s in servers :: s.disks, set s | s in servers :: s.modes
    {
      && (forall i, j :: 0 <= i < j < |servers| ==> Apart(servers[i], servers[j]))
      && (forall i :: 0 <= i < |servers| ==> servers[i].Valid())
      && warnCount == Sum(Weights())
    }

    ghost function Weights(): (ws: seq<nat>)
      reads servers, set s | s in servers :: s.disks
      ensures |ws| == |servers| && forall i :: 0 <= i < |ws| ==> ws[i] == servers[i].Weight()
    {
      seq(|servers|, i requires 0 <= i < |servers|
        reads servers, set s | s in servers :: s.disks
        => servers[i].Weight())
    }

    method FlipLabel(s: Monitored, field: nat, mode: Mode)
      requires field < s.modes.Length
      modifies s.modes
      ensures s.modes[..] == old(s.modes[..])[field := mode]
    {
      if s.modes[field] == mode {
        return;
      }
      s.modes[field] := mode;
    }

    /** The first half of checking a disk: its percentage. */
    method CheckPercent(s: Monitored, k: nat, data: DiskData)
      requires s.Valid() && !s.down && k < NUM_DISKS && data.totalBlocks > 0
      modifies this`warnCount, this`newTrouble, s.disks, s.modes
      ensures s.Valid() && s.disks[..] == old(s.disks[..])[k :=
        old(s.disks[k]).(tooFull := PercentFull(data) >= old(s.disks[k]).thresholds.percentFull)]
      ensures warnCount == old(warnCount) - Bits(old(s.disks[k])) + Bits(s.disks[k])
      ensures newTrouble == old(newTrouble) + Raised(old(s.disks[k]), s.disks[k])
    {
      var d := s.disks[k];
      if PercentFull(data) >= d.thresholds.percentFull {
        if !d.tooFull {
          s.disks[k] := d.(tooFull := !d.tooFull);
          FlipLabel(s, DISK_1 + k, MODE_WARN);
          warnCount, newTrouble := warnCount + 1, newTrouble + 1;
        }
      } else {
        if d.tooFull {
          s.disks[k] := d.(tooFull := !d.tooFull);
          if Bits(s.disks[k]) == 0 {
            FlipLabel(s, DISK_1 + k, MODE_CLEAR);
          }
          warnCount := warnCount - 1;
        }
      }
    }

    /** The second half: its free blocks. */
    method CheckBlocks(s: Monitored, k: nat, data: DiskData)
      requires s.Valid() && !s.down && k < NUM_DISKS
      modifies this`warnCount, this`newTrouble, s.disks, s.modes
      ensures s.Valid() && s.disks[..] == old(s.disks[..])[k :=
        old(s.disks[k]).(tooFewBlocks := data.blocksAvailable < old(s.disks[k]).thresholds.blocksAvail)]
      ensures warnCount == old(warnCount) - Bits(old(s.disks[k])) + Bits(s.disks[k])
      ensures newTrouble == old(newTrouble) + Raised(old(s.disks[k]), s.disks[k])
    {
      var d := s.disks[k];
      if data.blocksAvailable < d.thresholds.blocksAvail {
        if !d.tooFewBlocks {
          s.disks[k] := d.(tooFewBlocks := !d.tooFewBlocks);
          FlipLabel(s, DISK_1 + k, MODE_WARN);
          warnCount, newTrouble := warnCount + 1, newTrouble + 1;
        }
      } else {
        if d.tooFewBlocks {
          s.disks[k] := d.(tooFewBlocks := !d.tooFewBlocks);
          if Bits(s.disks[k]) == 0 {
            FlipLabel(s, DISK_1 + k, MODE_CLEAR);
          }
          warnCount := warnCount - 1;
        }
      }
    }

    method CheckDisk(s: Monitored, k: nat, data: DiskData)
      requires s.Valid() && !s.down && k < NUM_DISKS && (data.name != "" ==> data.totalBlocks > 0)
      modifies this`warnCount, this`newTrouble, s.disks, s.modes
      ensures s.Valid() && s.disks[..] == old(s.disks[..])[k := Checked(old(s.disks[k]), data)]
      ensures warnCount == old(warnCount) - old(s.Weight()) + s.Weight()
      ensures newTrouble == old(newTrouble) + Raised(old(s.disks[k]), s.disks[k])
    {
      if data.name == "" {
        assert s.disks[..][k := s.disks[k]] == s.disks[..];
        return;
      }
      ghost var ds := s.disks[..];
      CheckPercent(s, k, data);
      CheckBlocks(s, k, data);
      s.disks[k] := s.disks[k].(lastPercentFull := PercentFull(data), lastBlocksAvail := data.blocksAvailable);
      BitSumUpdate(ds, k, Checked(ds[k], data));
      assert s.disks[..] == ds[k := Checked(ds[k], data)];
    }

    /** Sets all labels of a server. */
    method FlipLabels(s: Monitored, mode: Mode)
      requires s.modes.Length == NUM_LABELS
      modifies s.modes
      ensures forall k :: 0 <= k < NUM_LABELS ==> s.modes[k] == mode
    {
      var ii := 0;
      while ii < NUM_LABELS
        invariant ii <= NUM_LABELS && forall k :: 0 <= k < ii ==> s.modes[k] == mode
      {
        ghost var ms := s.modes[..];
        FlipLabel(s, ii, mode);
        assert forall k :: 0 <= k < ii ==> s.modes[..][k] == ms[k];
        assert s.modes[..][ii] == mode;
        ii := ii + 1;
      }
    }

    /** Takes back the warnings of the disks of a server. */
    method ClearDisks(s: Monitored)
      requires s.disks.Length == NUM_DISKS
      modifies this`warnCount, s.disks
      ensures forall k :: 0 <= k < NUM_DISKS ==> s.disks[k] == Cleared(old(s.disks[k]))
      ensures warnCount == old(warnCount) - BitSum(old(s.disks[..]))
    {
      var ii := 0;
      while ii < NUM_DISKS
        invariant ii <= NUM_DISKS && warnCount == old(warnCount) - BitSum(old(s.disks[..])[..ii])
        invariant forall k :: 0 <= k < ii ==> s.disks[k] == Cleared(old(s.disks[k]))
        invariant forall k :: ii <= k < NUM_DISKS ==> s.disks[k] == old(s.disks[k])
      {
        if s.disks[ii].tooFewBlocks {
          warnCount := warnCount - 1;
        }
        if s.disks[ii].tooFull {
          warnCount := warnCount - 1;
        }
        s.disks[ii] := Disk(false, false, LONG_MAX, LONG_MAX, s.disks[ii].thresholds);
        assert old(s.disks[..])[..ii + 1][..ii] == old(s.disks[..])[..ii];
        ii := ii + 1;
      }
      assert old(s.disks[..])[..ii] == old(s.disks[..]);
    }

    method GoesDown(s: Monitored)
      requires s.Valid() && !s.down
      modifies this`warnCount, this`newTrouble, s`down, s.disks, s.modes
      ensures s.Valid() && s.down && forall k :: 0 <= k < NUM_DISKS ==> s.disks[k] == Cleared(old(s.disks[k]))
      ensures warnCount == old(warnCount) - old(s.Weight()) + s.Weight() && newTrouble == old(newTrouble) + 1
    {
      s.down := !s.down;
      FlipLabels(s, MODE_WARN);
      warnCount, newTrouble := warnCount + 1, newTrouble + 1;
      ClearDisks(s);
      NoBits(s.disks[..]);
    }

    method ComesUp(s: Monitored)
      requires s.Valid() && s.down
      modifies this`warnCount, s`down, s.modes
      ensures s.Valid() && !s.down
      ensures warnCount == old(warnCount) - old(s.Weight()) + s.Weight()
    {
      s.down := !s.down;
      FlipLabels(s, MODE_CLEAR);
      warnCount := warnCount - 1;
    }

    method CheckDisks(s: Monitored, data: seq<DiskData>)
      requires s.Valid() && !s.down && ProbeOk(Answer(data))
      modifies this`warnCount, this`newTrouble, s.disks, s.modes
      ensures s.Valid() && forall k :: 0 <= k < NUM_DISKS ==> s.disks[k] == Checked(old(s.disks[k]), data[k])
      ensures warnCount == old(warnCount) - old(s.Weight()) + s.Weight()
      ensures newTrouble == old(newTrouble) + RaisedSum(old(s.disks[..]), s.disks[..])
    {
      ghost var ds := s.disks[..];
      var ii := 0;
      while ii < NUM_DISKS
        invariant ii <= NUM_DISKS && s.Valid() && warnCount == old(warnCount) - old(s.Weight()) + s.Weight()
        invariant forall k :: 0 <= k < ii ==> s.disks[k] == Checked(ds[k], data[k])
        invariant forall k :: ii <= k < NUM_DISKS ==> s.disks[k] == ds[k]
        invariant newTrouble == old(newTrouble) + RaisedSum(ds[..ii], s.disks[..ii])
      {
        ghost var es := s.disks[..];
        CheckDisk(s, ii, data[ii]);
        RaisedNext(ds, es, s.disks[..], ii);
        ii := ii + 1;
      }
      assert ds[..ii] == ds && s.disks[..ii] == s.disks[..];
    }

    method ProcessServer(s: Monitored, p: Probe)
      requires s.Valid() && ProbeOk(p)
      modifies this`warnCount, this`newTrouble, s`down, s.disks, s.modes
      ensures s.Valid() && Follows(old(s.down), old(s.disks[..]), p, s.down, s.disks[..])
      ensures warnCount == old(warnCount) - old(s.Weight()) + s.Weight()
      ensures newTrouble == old(newTrouble) + NewWarnings(old(s.down), old(s.disks[..]), p, s.disks[..])
    {
      match p
      case NoAnswer =>
        if !s.down {
          GoesDown(s);
        }
      case Answer(data) =>
        if s.down {
          ComesUp(s);
        }
        CheckDisks(s, data);
    }

    /** Whether each server is down, and its disks. */
    ghost function States(): (ss: seq<(bool, seq<Disk>)>)
      reads servers, set s | s in servers :: s.disks
      ensures |ss| == |servers| && forall i :: 0 <= i < |ss| ==> ss[i] == (servers[i].down, servers[i].disks[..])
    {
      seq(|servers|, i requires 0 <= i < |servers|
        reads servers, set s | s in servers :: s.disks
        => (servers[i].down, servers[i].disks[..]))
    }

    static ghost predicate FollowsFrom(before: (bool, seq<Disk>), p: Probe, after: (bool, seq<Disk>), raised: nat) {
      Follows(before.0, before.1, p, after.0, after.1) && raised == NewWarnings(before.0, before.1, p, after.1)
    }

    method ProcessAt(ii: nat, p: Probe) returns (ghost states: seq<(bool, seq<Disk>)>, ghost raised: nat)
      requires Valid() && ii < |servers| && ProbeOk(p)
      modifies this`warnCount, this`newTrouble, servers`down, set s | s in servers :: s.disks
      modifies set s | s in servers :: s.modes
      ensures Valid() && states == States() && states == old(States())[ii := states[ii]]
      ensures FollowsFrom(old(States())[ii], p, states[ii], raised) && newTrouble == old(newTrouble) + raised
    {
      hide BitSum, RaisedSum, Follows, NewWarnings, Sum;
      ghost var s, ws, before := servers[ii], Weights(), States();
      Others(ii);
      ProcessServer(servers[ii], p);
      states := States();
      raised := NewWarnings(before[ii].0, before[ii].1, p, states[ii].1);
      SumUpdate(ws, ii, s.Weight());
      assert states == before[ii := states[ii]];
      assert Weights() == ws[ii := s.Weight()];
    }

    lemma Others(ii: nat)
      requires Valid() && ii < |servers|
      ensures forall i :: 0 <= i < |servers| && i != ii ==> Apart(servers[i], servers[ii])
    {
      forall i | 0 <= i < |servers| && i != ii ensures Apart(servers[i], servers[ii]) {
        assert if i < ii then Apart(servers[i], servers[ii]) else Apart(servers[ii], servers[i]);
      }
    }

    /** Takes in the results of a round of probes, and tells the supervisor of the number of warnings
        and of the new ones. */
    method ProcessData(probes: seq<Probe>) returns (warnings: int, trouble: nat, ghost raised: seq<nat>)
      requires Valid() && |probes| == |servers| && forall i :: 0 <= i < |probes| ==> ProbeOk(probes[i])
      modifies this`warnCount, this`newTrouble, servers`down, set s | s in servers :: s.disks
      modifies set s | s in servers :: s.modes
      ensures Valid() && warnings == warnCount && newTrouble == 0 && trouble == old(newTrouble) + Sum(raised)
      ensures |raised| == |servers|
      ensures forall i :: 0 <= i < |servers| ==> FollowsFrom(old(States())[i], probes[i], States()[i], raised[i])
    {
      hide *;
      ghost var before := States();
      raised := ProcessAll(probes, before);
      warnings, trouble := warnCount, newTrouble;
      newTrouble := 0;
    }

    method ProcessAll(probes: seq<Probe>, ghost before: seq<(bool, seq<Disk>)>) returns (ghost raised: seq<nat>)
      requires Valid() && |probes| == |servers| && (forall i :: 0 <= i < |probes| ==> ProbeOk(probes[i]))
      requires before == States()
      modifies this`warnCount, this`newTrouble, servers`down, set s | s in servers :: s.disks
      modifies set s | s in servers :: s.modes
      ensures Valid() && |raised| == |servers| && newTrouble == old(newTrouble) + Sum(raised)
      ensures forall i :: 0 <= i < |servers| ==> FollowsFrom(before[i], probes[i], States()[i], raised[i])
    {
      hide *;
      var ii := 0;
      ghost var now := before;
      raised := [];
      SumAppend([], 0);
      while ii < |servers|
        invariant ii <= |servers| && Valid() && now == States() && |now| == |servers| && |raised| == ii
        invariant forall i :: 0 <= i < ii ==> FollowsFrom(before[i], probes[i], now[i], raised[i])
        invariant forall i :: ii <= i < |servers| ==> now[i] == before[i]
        invariant newTrouble == old(newTrouble) + Sum(raised)
      {
        ghost var r;
        now, r := ProcessAt(ii, probes[ii]);
        SumAppend(raised, r);
        raised := raised + [r];
        ii := ii + 1;
      }
    }
  }

  // ----- all servers

  ghost function Sum(ws: seq<nat>): nat {
    if ws == [] then 0 else Sum(ws[..|ws| - 1]) + ws[|ws| - 1]
  }

  lemma SumAppend(ws: seq<nat>, w: nat)
    ensures Sum(ws + [w]) == Sum(ws) + w && Sum([]) == 0
  {
    assert (ws + [w])[..|ws|] == ws;
  }

  lemma {:induction false} SumZero(ws: seq<nat>)
    requires forall i :: 0 <= i < |ws| ==> ws[i] == 0
    ensures Sum(ws) == 0
  {
    if ws != [] {
      SumZero(ws[..|ws| - 1]);
    }
  }

  lemma {:induction false} SumUpdate(ws: seq<nat>, k: nat, w: nat)
    requires k < |ws|
    ensures Sum(ws[k := w]) == Sum(ws) - ws[k] + w
  {
    var n := |ws| - 1;
    if k < n {
      SumUpdate(ws[..n], k, w);
      assert ws[k := w][..n] == ws[..n][k := w];
    } else {
      assert ws[k := w][..n] == ws[..n];
    }
  }

  ghost predicate Apart(s: Monitored, t: Monitored) {
    s != t && s.disks != t.disks && s.modes != t.modes
  }

  lemma RaisedNext(ds: seq<Disk>, es: seq<Disk>, fs: seq<Disk>, k: nat)
    requires k < |ds| == |es| == |fs| && es[..k] == fs[..k]
    ensures RaisedSum(ds[..k + 1], fs[..k + 1]) == RaisedSum(ds[..k], es[..k]) + Raised(ds[k], fs[k])
  {
    assert ds[..k + 1][..k] == ds[..k] && fs[..k + 1][..k] == fs[..k];
  }
}
