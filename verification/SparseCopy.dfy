/** The file copier that makes holes: it leaves out the blocks that are all zero. */
module SparseCopy {

  type byte = n: int | 0 <= n < 256

  const WORD: nat := 4   // bytes in an int

  ghost function Zeros(n: nat): (z: seq<byte>)
    ensures |z| == n && forall i :: 0 <= i < n ==> z[i] == 0
  {
    seq(n, i => 0)
  }

  ghost predicate AllZero(s: seq<byte>) {
    forall i :: 0 <= i < |s| ==> s[i] == 0
  }

  /** What a file holds after data has been written at a position, which may be past its end. */
  ghost function Overlay(bytes: seq<byte>, pos: nat, data: seq<byte>): seq<byte> {
    if pos >= |bytes| then bytes + Zeros(pos - |bytes|) + data
    else bytes[..pos] + data + if pos + |data| < |bytes| then bytes[pos + |data|..] else []
  }

  /** The file being written. */
  class Target {
    ghost var bytes: seq<byte>
    ghost var writes: seq<seq<byte>>   // what has been asked to be written
    ghost var faults: nat              // system calls of the copy that failed or fell short
    var pos: nat

    constructor ()
      ensures bytes == [] && writes == [] && pos == 0 && faults == 0
    {
      bytes, writes, pos, faults := [], [], 0, 0;
    }

    /** Writes as much of the data as it can; a negative result is a failure. */
    method Write(data: seq<byte>) returns (n: int)
      modifies this
      ensures n <= |data| && writes == old(writes) + [data]
      ensures faults == old(faults) + if n < |data| then 1 else 0
      ensures n == |data| ==> bytes == Overlay(old(bytes), old(pos), data) && pos == old(pos) + |data|
    {
      n := *;
      writes := writes + [data];
      if 0 <= n <= |data| {
        bytes, pos := Overlay(bytes, pos, data[..n]), pos + n;
        assert n == |data| ==> data[..n] == data;
      } else {
        n := -1;
      }
      faults := faults + if n < |data| then 1 else 0;
    }

    /** Moves the position relative to where it is. */
    method Seek(offset: int) returns (ok: bool)
      requires pos + offset >= 0
      modifies this`pos, this`faults
      ensures ok ==> pos as int == old(pos) + offset
      ensures faults == old(faults) + if ok then 0 else 1
    {
      ok := *;
      if ok {
        pos := pos + offset;
      } else {
        faults := faults + 1;
      }
    }

    method Truncate(length: nat) returns (ok: bool)
      modifies this`bytes, this`faults
      ensures faults == old(faults) + if ok then 0 else 1
      ensures ok ==>
        bytes == if length <= |old(bytes)| then old(bytes)[..length] else old(bytes) + Zeros(length - |old(bytes)|)
    {
      ok := *;
      if ok {
        bytes := if length <= |bytes| then bytes[..length] else bytes + Zeros(length - |bytes|);
      } else {
        faults := faults + 1;
      }
    }
  }

  // ----- the scan for a block of zeros

  /** The `i`th word of a buffer. */
  function Word(buf: array<byte>, i: nat): (w: int)
    requires WORD * i + WORD <= buf.Length
    reads buf
    ensures w == 0 <==> AllZero(buf[WORD * i..WORD * i + WORD])
  {
    var k := WORD * i;
    assert buf[k..k + WORD] == [buf[k], buf[k + 1], buf[k + 2], buf[k + 3]];
    var (b0: int, b1: int, b2: int, b3: int) := (buf[k], buf[k + 1], buf[k + 2], buf[k + 3]);
    b0 + 0x100 * b1 + 0x1_0000 * b2 + 0x100_0000 * b3
  }

  /** Whether the first `n` bytes are all zero.  A byte that is not zero after them ends both loops,
      inside the buffer, whatever follows it. */
  method AllZeroBlock(buf: array<byte>, n: nat) returns (hole: bool)
    requires n + WORD <= buf.Length
    modifies buf
    ensures hole <==> AllZero(old(buf[..n]))
    ensures buf[..n] == old(buf[..n])
  {
    buf[n] := 1;
    var ip := 0;
    while Word(buf, ip) == 0
      invariant WORD * ip <= n && AllZero(buf[..WORD * ip])
      decreases n - WORD * ip
    {
      assert forall j :: WORD * ip <= j < WORD * ip + WORD ==>
        buf[j] == buf[WORD * ip..WORD * ip + WORD][j - WORD * ip] == 0;
      ip := ip + 1;
    }
    ip := ip + 1;
    var cp := WORD * (ip - 1);
    while buf[cp] == 0
      invariant WORD * (ip - 1) <= cp <= n && AllZero(buf[..cp])
      decreases n - cp
    {
      cp := cp + 1;
    }
    cp := cp + 1;
    hole := cp > n;
    assert cp <= n ==> buf[..n][cp - 1] != 0;
  }

  // ----- the copy

  /** What is in the target, followed by a hole, is what has been read. */
  ghost predicate Copied(bytes: seq<byte>, source: seq<byte>, total: nat) {
    && |bytes| <= total <= |source|
    && bytes == source[..|bytes|]
    && AllZero(source[|bytes|..total])
  }

  /** Reads the next block: at least one byte and at most `size`, fewer than are left if it likes;
      none at the end of the file; or a failure. */
  method Read(source: seq<byte>, at: nat, buf: array<byte>, size: nat, target: Target) returns (n: int)
    requires at <= |source| && size <= buf.Length
    modifies buf, target`faults
    ensures target.faults == old(target.faults) + if n < 0 then 1 else 0
    ensures n <= size && at + n <= |source|
    ensures n > 0 ==> buf[..n] == source[at..at + n]
    ensures n == 0 ==> at == |source| || size == 0
  {
    n := *;
    if n < 0 {
      target.faults := target.faults + 1;
      return -1;
    }
    if n == 0 || n > size || at + n > |source| {
      n := if size <= |source| - at then size else |source| - at;
    }
    forall i | 0 <= i < n {
      buf[i] := source[at + i];
    }
  }

  lemma HoleCopied(bytes: seq<byte>, source: seq<byte>, total: nat, n: nat)
    requires Copied(bytes, source, total) && total + n <= |source| && AllZero(source[total..total + n])
    ensures Copied(bytes, source, total + n)
  {
    var z := source[|bytes|..total + n];
    forall i | 0 <= i < |z| ensures z[i] == 0 {
      if i < total - |bytes| {
        assert z[i] == source[|bytes|..total][i];
      } else {
        assert z[i] == source[total..total + n][i - (total - |bytes|)];
      }
    }
  }

  lemma BlockCopied(bytes: seq<byte>, source: seq<byte>, total: nat, n: nat)
    requires Copied(bytes, source, total) && total + n <= |source|
    ensures Overlay(bytes, total, source[total..total + n]) == source[..total + n]
  {
    assert Zeros(total - |bytes|) == source[|bytes|..total];
    assert source[..total + n] == source[..|bytes|] + source[|bytes|..total] + source[total..total + n];
  }

  /** Copies a file.  The result is -1 if a system call failed, else 0, and then the target holds exactly the
      source.  When holes are made, no block of zeros is written, but for the one byte that ends the file. */
  method Copy(source: seq<byte>, blockSize: nat, makeHoles: bool, haveTruncate: bool, target: Target)
    returns (status: int)
    requires blockSize > 0 && target.bytes == [] && target.writes == [] && target.pos == 0
    modifies target
    ensures status == if target.faults > old(target.faults) then -1 else 0
    ensures status == 0 ==> target.bytes == source
    ensures makeHoles ==> forall w :: w in target.writes ==> !AllZero(w) || w == [0]
  {
    var buf := new byte[blockSize + WORD](i => 0);
    var total, lastWriteMadeHole := 0, false;
    while true
      invariant total <= |source| && target.pos == total && Copied(target.bytes, source, total)
      invariant if lastWriteMadeHole then |target.bytes| < total else |target.bytes| == total
      invariant makeHoles ==> forall w :: w in target.writes ==> !AllZero(w)
      invariant target.faults == old(target.faults)
      decreases |source| - total
    {
      var n := Read(source, total, buf, blockSize, target);
      if n < 0 {
        return -1;
      }
      if n == 0 {
        break;
      }
      var hole := false;
      if makeHoles {
        hole := AllZeroBlock(buf, n);
      }
      if hole {
        var ok := target.Seek(n);
        if !ok {
          return -1;
        }
        HoleCopied(target.bytes, source, total, n);
        lastWriteMadeHole := true;
      } else {
        BlockCopied(target.bytes, source, total, n);
        var written := target.Write(buf[..n]);
        if written < n {
          return -1;
        }
        lastWriteMadeHole := false;
      }
      total := total + n;
    }
    assert source[..total] == source;
    if lastWriteMadeHole {
      var ok := EndHole(source, haveTruncate, target);
      if !ok {
        return -1;
      }
    }
    status := 0;
  }

  lemma EndsInZeros(bytes: seq<byte>, source: seq<byte>)
    requires |bytes| < |source| && Copied(bytes, source, |source|)
    ensures Overlay(bytes, |source| - 1, [0]) == source
  {
    var k := |source| - 1;
    forall i | |bytes| <= i <= k ensures source[i] == 0 {
      assert source[i] == source[|bytes|..|source|][i - |bytes|];
    }
  }

  /** A file that ends with a hole gets something written at its end. */
  method EndHole(source: seq<byte>, haveTruncate: bool, target: Target) returns (ok: bool)
    requires |target.bytes| < |source| == target.pos && Copied(target.bytes, source, |source|)
    modifies target
    ensures ok ==> target.bytes == source
    ensures target.faults == old(target.faults) + if ok then 0 else 1
    ensures forall w :: w in target.writes ==> w in old(target.writes) || w == [0]
  {
    if haveTruncate {
      assert source[|target.bytes|..|source|] == Zeros(|source| - |target.bytes|);
      var n := target.Write([0]);
      if n != 1 {
        return false;
      }
      ok := target.Truncate(|source|);
    } else {
      ok := target.Seek(-1);
      if !ok {
        return;
      }
      EndsInZeros(target.bytes, source);
      var n := target.Write([0]);
      ok := n == 1;
    }
  }
}
