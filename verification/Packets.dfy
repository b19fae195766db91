/** Cursors over packet buffers: every put and get advances, and fails where the packet ends. */
module Packets {
  import opened Integers

  // ----- bytes

  function IntBytes(x: int): (b: seq<byte>)
    ensures |b| == 4
  {
    var u := U32(x);
    [(u / 256 / 256 / 256) as byte, (u / 256 / 256 % 256) as byte, (u / 256 % 256) as byte, (u % 256) as byte]
  }

  function IntOf(b: seq<byte>): int
    requires |b| == 4
  {
    ((b[0] as int * 256 + b[1] as int) * 256 + b[2] as int) * 256 + b[3] as int
  }

  lemma IntOfBytes(x: int)
    ensures IntOf(IntBytes(x)) == U32(x)
  {
  }

  /** The first byte of a number counts most. */
  lemma NetworkOrder(x: int)
    ensures var b := IntBytes(x);
      U32(x) == 0x100_0000 * b[0] as int + 0x1_0000 * b[1] as int + 0x100 * b[2] as int + b[3] as int
  {
  }

  function PadTo(n: nat, a: nat): (p: nat)
    requires a > 0
    ensures n <= p < n + a
  {
    (n + a - 1) / a * a
  }

  function Zeros(n: nat): seq<byte> {
    seq(n, _ => 0)
  }

  /** A string as it is put: its bytes and a final 0. */
  function Str(s: seq<byte>): seq<byte> {
    s + [0]
  }

  /** The index of the first 0, or the length if there is none. */
  function StrLen(s: seq<byte>): (n: nat)
    ensures n <= |s| && (n < |s| ==> s[n] == 0) && forall k :: 0 <= k < n ==> s[k] != 0
  {
    if s == [] || s[0] == 0 then 0 else 1 + StrLen(s[1..])
  }

  // ----- what a read makes of the rest of a packet

  datatype Parsed<T> = Bad | Got(value: T, rest: seq<byte>)

  function GetChar(s: seq<byte>): Parsed<byte> {
    if |s| < 1 then Bad else Got(s[0], s[1..])
  }

  function GetInt(s: seq<byte>): Parsed<int> {
    if |s| < 4 then Bad else Got(IntOf(s[..4]), s[4..])
  }

  function GetBytes(s: seq<byte>, n: nat): Parsed<seq<byte>> {
    if |s| < n then Bad else Got(s[..n], s[n..])
  }

  /** A string ends at its 0; it must fit in `size` bytes. */
  function GetStr(s: seq<byte>, size: nat): Parsed<seq<byte>> {
    var n := StrLen(s);
    if n > size || n == |s| then Bad else Got(s[..n], s[n + 1..])
  }

  /** A counted string, padded to a multiple of four. */
  function GetPStr(s: seq<byte>, size: nat): Parsed<seq<byte>> {
    match GetInt(s)
    case Bad => Bad
    case Got(len, rest) => if len > size || PadTo(len, 4) > |rest| then Bad else Got(rest[..len], rest[PadTo(len, 4)..])
  }

  function PStr(s: seq<byte>): seq<byte> {
    IntBytes(|s|) + s + Zeros(PadTo(|s|, 4) - |s|)
  }

  // ----- each read undoes its write

  lemma GotChar(b: byte, rest: seq<byte>)
    ensures GetChar([b] + rest) == Got(b, rest)
  {
  }

  lemma GotInt(x: int, rest: seq<byte>)
    ensures GetInt(IntBytes(x) + rest) == Got(U32(x), rest)
  {
    IntOfBytes(x);
    assert (IntBytes(x) + rest)[..4] == IntBytes(x);
  }

  lemma GotBytes(b: seq<byte>, rest: seq<byte>)
    ensures GetBytes(b + rest, |b|) == Got(b, rest)
  {
    assert (b + rest)[..|b|] == b && (b + rest)[|b|..] == rest;
  }

  lemma {:induction false} StrLenOf(s: seq<byte>, rest: seq<byte>)
    requires 0 !in s
    ensures StrLen(Str(s) + rest) == |s|
  {
    if s == [] {
    } else {
      StrLenOf(s[1..], rest);
      assert (Str(s) + rest)[1..] == Str(s[1..]) + rest;
    }
  }

  lemma StrLenIs(s: seq<byte>, n: nat)
    requires n <= |s| && (n < |s| ==> s[n] == 0) && forall k :: 0 <= k < n ==> s[k] != 0
    ensures StrLen(s) == n
  {
  }

  lemma GotStr(s: seq<byte>, size: nat, rest: seq<byte>)
    requires 0 !in s && |s| <= size
    ensures GetStr(Str(s) + rest, size) == Got(s, rest)
  {
    StrLenOf(s, rest);
    assert (Str(s) + rest)[..|s|] == s && (Str(s) + rest)[|s| + 1..] == rest;
  }

  lemma GotPStr(s: seq<byte>, size: nat, rest: seq<byte>)
    requires |s| <= size < TWO_TO_THE_31
    ensures GetPStr(PStr(s) + rest, size) == Got(s, rest)
  {
    hide IntBytes, GetPStr;
    var b, pad := PStr(s) + rest, Zeros(PadTo(|s|, 4) - |s|);
    assert b == IntBytes(|s|) + (s + (pad + rest));
    assert b[4..] == s + (pad + rest) && b[4..4 + |s|] == s;
    assert b[4 + PadTo(|s|, 4)..] == rest;
    PStrExactly(b, size, s, rest);
  }

  /** A string is got exactly if it is what stands before the first 0, and fits. */
  lemma StrExactly(s: seq<byte>, size: nat, x: seq<byte>, rest: seq<byte>)
    ensures GetStr(s, size) == Got(x, rest) <==> 0 !in x && |x| <= size && s == x + [0] + rest
  {
    if 0 !in x && |x| <= size && s == x + [0] + rest {
      assert s == Str(x) + rest;
      GotStr(x, size, rest);
    }
    var n := StrLen(s);
    if n < |s| {
      assert s == s[..n] + [0] + s[n + 1..];
    }
  }

  /** The next multiple of four. */
  lemma PadToFour(n: nat)
    ensures PadTo(n, 4) % 4 == 0 && n <= PadTo(n, 4) < n + 4
  {
  }

  /** A counted string is got exactly if it follows its length, and fits, and its padding, whatever that is,
      follows it. */
  lemma PStrExactly(s: seq<byte>, size: nat, x: seq<byte>, rest: seq<byte>)
    requires size < TWO_TO_THE_31
    ensures var end := 4 + PadTo(|x|, 4);
      GetPStr(s, size) == Got(x, rest) <==>
        |x| <= size && end <= |s| && s[..4] == IntBytes(|x|) && s[4..4 + |x|] == x && s[end..] == rest
  {
    hide IntBytes, IntOf, PadTo;
    if |s| >= 4 {
      LengthBack(s[..4], |x|);
      assert |x| <= |s| - 4 ==> s[4..][..|x|] == s[4..4 + |x|];
      assert PadTo(|x|, 4) <= |s| - 4 ==> s[4..][PadTo(|x|, 4)..] == s[4 + PadTo(|x|, 4)..];
    }
  }

  lemma LengthBack(b: seq<byte>, n: nat)
    requires |b| == 4
    ensures 0 <= IntOf(b) && (n < TWO_TO_THE_31 ==> (IntOf(b) == n <==> b == IntBytes(n)))
  {
    IntOfBytes(n);
    BytesOfInt(b);
  }

  lemma BytesOfInt(b: seq<byte>)
    requires |b| == 4
    ensures IntBytes(IntOf(b)) == b
  {
    var (x, y, z) := (b[0] as int * 256 + b[1] as int, (b[0] as int * 256 + b[1] as int) * 256 + b[2] as int, IntOf(b));
    assert z / 256 == y && y / 256 == x && x / 256 == b[0] as int;
    assert U32(z) == z;
  }

  // ----- cursors

  class Reader {
    const base: array<byte>
    const maxn: nat
    var n: nat

    constructor (base: array<byte>, maxn: nat)
      requires maxn <= base.Length
      ensures this.base == base && this.maxn == maxn && n == 0 && Valid()
    {
      this.base, this.maxn, n := base, maxn, 0;
    }

    ghost predicate Valid()
      reads this
    {
      n <= maxn <= base.Length
    }

    ghost function Rest(): seq<byte>
      requires Valid()
      reads this, base
    {
      base[n..maxn]
    }

    method Advance(k: nat) returns (ok: bool)
      requires Valid()
      modifies this
      ensures Valid() && (ok <==> k <= |old(Rest())|)
      ensures ok ==> Rest() == old(Rest())[k..]
    {
      ok := n + k <= maxn;
      if ok {
        n := n + k;
      }
    }

    method ReadChar() returns (ok: bool, x: byte)
      requires Valid()
      modifies this
      ensures Valid() && (ok <==> GetChar(old(Rest())).Got?)
      ensures ok ==> GetChar(old(Rest())) == Got(x, Rest())
    {
      x := 0;
      ok := n + 1 <= maxn;
      if ok {
        x := base[n];
        n := n + 1;
      }
    }

    method ReadBytes(k: nat) returns (ok: bool, x: seq<byte>)
      requires Valid()
      modifies this
      ensures Valid() && (ok <==> GetBytes(old(Rest()), k).Got?)
      ensures ok ==> GetBytes(old(Rest()), k) == Got(x, Rest())
    {
      x := [];
      ok := n + k <= maxn;
      if ok {
        x := base[n..n + k];
        assert Rest()[..k] == x && Rest()[k..] == base[n + k..maxn];
        n := n + k;
      }
    }

    method ReadInt() returns (ok: bool, x: int)
      requires Valid()
      modifies this
      ensures Valid() && (ok <==> GetInt(old(Rest())).Got?)
      ensures ok ==> GetInt(old(Rest())) == Got(x, Rest())
    {
      x := 0;
      var b;
      ok, b := ReadBytes(4);
      if ok {
        x := IntOf(b);
      }
    }

    method ReadStr(size: nat) returns (ok: bool, x: seq<byte>)
      requires Valid()
      modifies this
      ensures Valid() && (ok <==> GetStr(old(Rest()), size).Got?)
      ensures ok ==> GetStr(old(Rest()), size) == Got(x, Rest())
    {
      var len := 0;
      while n + len < maxn && base[n + len] != 0
        invariant n + len <= maxn && forall k :: n <= k < n + len ==> base[k] != 0
      {
        len := len + 1;
      }
      StrLenIs(Rest(), len);
      x := [];
      ok := len <= size && n + len < maxn;
      if ok {
        x := base[n..n + len];
        assert Rest()[..len] == x && Rest()[len + 1..] == base[n + len + 1..maxn];
        n := n + len + 1;
      }
    }

    method ReadPStr(size: nat) returns (ok: bool, x: seq<byte>)
      requires Valid()
      modifies this
      ensures Valid() && (ok <==> GetPStr(old(Rest()), size).Got?)
      ensures ok ==> GetPStr(old(Rest()), size) == Got(x, Rest())
    {
      x := [];
      var len;
      ok, len := ReadInt();
      if !ok || len > size || n + PadTo(len, 4) > maxn {
        return false, [];
      }
      x := base[n..n + len];
      assert Rest()[..len] == x && Rest()[PadTo(len, 4)..] == base[n + PadTo(len, 4)..maxn];
      n := n + PadTo(len, 4);
    }
  }

  /** A put that does not fit makes the writer fail for good. */
  class Writer {
    const base: array<byte>
    const maxn: nat
    var n: nat
    var failed: bool

    constructor (base: array<byte>, maxn: nat)
      requires maxn <= base.Length
      ensures this.base == base && this.maxn == maxn && n == 0 && !failed && Valid()
    {
      this.base, this.maxn, n, failed := base, maxn, 0, false;
    }

    ghost predicate Valid()
      reads this
    {
      n <= maxn <= base.Length
    }

    ghost function Written(): seq<byte>
      requires Valid()
      reads this, base
    {
      base[..n]
    }

    /** Nothing has been put beyond the cursor. */
    ghost predicate Clean()
      requires Valid()
      reads this, base
    {
      forall i :: n <= i < base.Length ==> base[i] == 0
    }

    /** Moves over what the buffer already holds. */
    method Skip(k: nat)
      requires Valid()
      modifies this
      ensures Valid() && failed == (old(failed) || old(n) + k > maxn)
      ensures !failed ==> n == old(n) + k
    {
      if !failed && n + k <= maxn {
        n := n + k;
      } else {
        failed := true;
      }
    }

    ghost predicate CleanFrom(k: nat)
      reads this, base
    {
      forall i :: k <= i < base.Length ==> base[i] == 0
    }

    method PutBytes(b: seq<byte>)
      requires Valid() && (failed || CleanFrom(n + |b|))
      modifies this, base
      ensures Valid() && (failed || Clean())
      ensures failed == (old(failed) || old(n) + |b| > maxn)
      ensures !failed ==> Written() == old(Written()) + b
    {
      if !failed && n + |b| <= maxn {
        forall i | 0 <= i < |b| {
          base[n + i] := b[i];
        }
        n := n + |b|;
      } else {
        failed := true;
      }
    }

    /** Moves over k bytes of padding. */
    method Pad(k: nat)
      requires Valid() && (failed || Clean())
      modifies this
      ensures Valid() && (failed || Clean())
      ensures failed == (old(failed) || old(n) + k > maxn)
      ensures !failed ==> Written() == old(Written()) + Zeros(k)
    {
      Skip(k);
    }

    /** A string put without its final 0, for which there must be room all the same. */
    method PutLabel(text: seq<byte>)
      requires Valid() && (failed || Clean())
      modifies this, base
      ensures Valid() && (failed || Clean())
      ensures failed == (old(failed) || old(n) + |text| + 1 > maxn)
      ensures !failed ==> Written() == old(Written()) + text
    {
      PutBytes(Str(text));
      if !failed {
        assert Written()[..n - 1] == old(Written()) + text && Written()[n - 1] == 0;
        n := n - 1;
      }
    }

    /** Fills in a number put earlier. */
    method Patch(at: nat, x: int)
      requires Valid() && at + 4 <= n && Clean()
      modifies base
      ensures Clean() && Written() == old(Written())[..at] + IntBytes(x) + old(Written())[at + 4..]
    {
      var b := IntBytes(x);
      forall i | 0 <= i < 4 {
        base[at + i] := b[i];
      }
    }

    /** Replaces what has been put since `at`. */
    method Overwrite(at: nat, b: seq<byte>)
      requires Valid() && at + |b| == n && Clean()
      modifies base
      ensures Clean() && Written() == old(Written())[..at] + b
    {
      forall i | 0 <= i < |b| {
        base[at + i] := b[i];
      }
    }
  }
}
