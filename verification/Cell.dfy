/** The balancer's picture of the cell: servers, their partitions, and the volumes on them. */
module Cell {
  import opened Transactions
  import Glob

  type Job = Request<Volume, Server, Partition>

  type pos = n: int | 0 < n witness 1

  class Server {
    var locked: bool      // lock flag of the executor

    constructor ()
      ensures !locked
    {
      locked := false;
    }
  }

  class Partition {
    const who: Server     // the server it belongs to
    const size: pos       // total space
    const inplus: seq<string>   // globs a volume must match to move in; none match everything
    const inminus: seq<string>  // globs a volume must not match to move in
    var locked: int       // the lock number it was last marked with
    var free: int         // free space
    var nvols: int        // how many volumes, moveable or not
    var vols: seq<Volume> // the moveable volumes

    constructor (who: Server, size: pos, inplus: seq<string>, inminus: seq<string>, free: int, nvols: int)
      ensures this.who == who && this.size == size && this.inplus == inplus && this.inminus == inminus
      ensures this.free == free && this.nvols == nvols && locked == 0 && vols == []
    {
      this.who, this.size, this.inplus, this.inminus := who, size, inplus, inminus;
      this.free, this.nvols, locked, vols := free, nvols, 0, [];
    }

    /** Whether the partition's inbound globs let a volume in. */
    predicate Welcomes(v: Volume) {
      Glob.MatchList(inplus, v.name) && !(inminus != [] && Glob.MatchList(inminus, v.name))
    }
  }

  class Volume {
    const name: string
    const size: nat       // usage
    const bkexist: bool   // a backup volume exists
    var ntimes: int       // how often it has been moved
    var phome: Partition  // where it is

    constructor (name: string, size: nat, bkexist: bool, phome: Partition)
      ensures this.name == name && this.size == size && this.bkexist == bkexist
      ensures this.phome == phome && ntimes == 0
    {
      this.name, this.size, this.bkexist := name, size, bkexist;
      this.phome, ntimes := phome, 0;
    }
  }

  /** Some glob lets the volume in, if there are any, and none keeps it out. */
  ghost predicate Admits(p: Partition, v: Volume) {
    && (p.inplus == [] || exists g :: g in p.inplus && Glob.Match(v.name, g))
    && (forall g :: g in p.inminus ==> !Glob.Match(v.name, g))
  }

  lemma WelcomesExactly(p: Partition, v: Volume)
    ensures p.Welcomes(v) <==> Admits(p, v)
  {
    assert Glob.MatchList(p.inplus, v.name) ==> p.inplus == [] || exists g :: g in p.inplus && Glob.Match(v.name, g);
    forall g | g in p.inminus && Glob.Match(v.name, g) ensures !p.Welcomes(v) {
      var i :| 0 <= i < |p.inminus| && p.inminus[i] == g;
    }
    if p.inplus != [] && exists g :: g in p.inplus && Glob.Match(v.name, g) {
      var g :| g in p.inplus && Glob.Match(v.name, g);
      var i :| 0 <= i < |p.inplus| && p.inplus[i] == g;
    }
  }
}
