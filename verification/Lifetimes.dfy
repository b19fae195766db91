/** Ticket lifetimes: one byte stands for multiples of five minutes up to 127, and beyond that for an entry
    of a table that grows to thirty days. */
module Lifetimes {
  import opened Integers

  const FIVE_MINUTES: int := 300
  const ENTRIES: nat := 64
  const SHORTEST: int := 38400
  const LONGEST: int := 2591999

  /** The table, in rows of eight; a final 0 ends it. */
  const ROWS: seq<seq<int>> := [
    [38400,  41055,  43894,  46929,  50174,  53643,  57352,  61318],
    [65558,  70091,  74937,  80119,  85658,  91581,  97914,  104684],
    [111922,  119661,  127935,  136781,  146239,  156350,  167161,  178720],
    [191077,  204289,  218415,  233517,  249663,  266926,  285383,  305116],
    [326213,  348769,  372885,  398668,  426233,  455705,  487215,  520903],
    [556921,  595430,  636600,  680618,  727679,  777995,  831789,  889303],
    [950794,  1016536,  1086825,  1161973,  1242317,  1328217,  1420057,  1518246],
    [1623225,  1735463,  1855462,  1983757,  2120924,  2267575,  2424366, 2591999]]

  function CmuSeconds(i: nat): int
    requires i <= ENTRIES
  {
    assert |ROWS| == 8 && |ROWS[0]| == |ROWS[1]| == |ROWS[2]| == |ROWS[3]| == 8;
    assert |ROWS[4]| == |ROWS[5]| == |ROWS[6]| == |ROWS[7]| == 8;
    if i == ENTRIES then 0 else ROWS[i / 8][i % 8]
  }

  ghost predicate Rising(row: seq<int>) {
    |row| == 8 && row[0] < row[1] < row[2] < row[3] < row[4] < row[5] < row[6] < row[7]
  }

  lemma RowsRise(a: nat)
    requires a < 8
    ensures |ROWS| == 8 && Rising(ROWS[a])
    ensures a < 7 ==> |ROWS[a + 1]| == 8 && ROWS[a][7] < ROWS[a + 1][0]
  {
    assert Rising(ROWS[0]) && Rising(ROWS[1]) && Rising(ROWS[2]) && Rising(ROWS[3]);
    assert Rising(ROWS[4]) && Rising(ROWS[5]) && Rising(ROWS[6]) && Rising(ROWS[7]);
  }

  lemma InRow(row: seq<int>, k: nat)
    requires Rising(row) && k < 7
    ensures row[k] < row[k + 1]
  {
  }

  lemma Ascends(i: nat)
    requires i < ENTRIES - 1
    ensures CmuSeconds(i) < CmuSeconds(i + 1)
  {
    RowsRise(i / 8);
    if i % 8 < 7 {
      assert (i + 1) / 8 == i / 8 && (i + 1) % 8 == i % 8 + 1;
      InRow(ROWS[i / 8], i % 8);
    } else {
      assert (i + 1) / 8 == i / 8 + 1 && (i + 1) % 8 == 0;
    }
  }

  lemma {:induction false} AscendsTo(i: nat, j: nat)
    requires i < j < ENTRIES
    ensures CmuSeconds(i) < CmuSeconds(j)
  {
    hide CmuSeconds;
    Ascends(j - 1);
    if i < j - 1 {
      AscendsTo(i, j - 1);
    }
  }

  lemma Ends()
    ensures CmuSeconds(0) == SHORTEST && CmuSeconds(ENTRIES - 1) == LONGEST && CmuSeconds(ENTRIES) == 0
    ensures forall i :: 0 <= i < ENTRIES ==> CmuSeconds(i) >= SHORTEST
  {
    assert ROWS[7][7] == LONGEST && ROWS[0][0] == SHORTEST;
    forall i | 0 <= i < ENTRIES ensures CmuSeconds(i) >= SHORTEST {
      if i > 0 {
        AscendsTo(0, i);
      }
    }
  }

  /** The first entry that is not below the lifetime, or the end of the table. */
  function Entry(lifetime: int, from: nat): (i: nat)
    requires from <= ENTRIES
    ensures from <= i <= ENTRIES
    ensures forall k :: from <= k < i ==> CmuSeconds(k) != 0 && CmuSeconds(k) < lifetime
    ensures CmuSeconds(i) == 0 || CmuSeconds(i) >= lifetime
    decreases ENTRIES - from
  {
    if from == ENTRIES then from
    else if CmuSeconds(from) == 0 || CmuSeconds(from) >= lifetime then from
    else Entry(lifetime, from + 1)
  }

  function V4Life(lifetime: int): int {
    if Truncated(lifetime, FIVE_MINUTES) > 127 then 128 + Entry(lifetime, 0) else Truncated(lifetime, FIVE_MINUTES)
  }

  /** The byte in the ticket: what is left of a negative number is its low byte. */
  function LifeByte(lifetime: int): (b: nat)
    ensures b < 256
  {
    V4Life(lifetime) % 256
  }

  /** What the reader takes the byte for; beyond the table it reads whatever follows. */
  function Seconds(b: nat, beyond: int): int {
    if b < 128 then b * FIVE_MINUTES else if b - 128 <= ENTRIES then CmuSeconds(b - 128) else beyond
  }

  method ToV4Life(lifetime: int) returns (v4life: int)
    ensures v4life == V4Life(lifetime)
  {
    v4life := Truncated(lifetime, FIVE_MINUTES);
    if v4life > 127 {
      var i := 0;
      while CmuSeconds(i) != 0 && CmuSeconds(i) < lifetime
        invariant i <= ENTRIES && Entry(lifetime, i) == Entry(lifetime, 0)
        decreases ENTRIES - i
      {
        i := i + 1;
      }
      v4life := 128 + i;
    }
  }

  // ----- what the byte keeps of a lifetime

  ghost predicate InTable(lifetime: int) {
    exists i :: 0 <= i < ENTRIES && CmuSeconds(i) == lifetime
  }

  /** Below the table a lifetime loses its part of five minutes. */
  lemma ShortLifetimes(lifetime: int, beyond: int)
    requires 0 <= lifetime < SHORTEST
    ensures Seconds(LifeByte(lifetime), beyond) == lifetime - lifetime % FIVE_MINUTES
  {
  }

  /** Within the table a lifetime becomes the smallest entry that covers it. */
  lemma LongLifetimes(lifetime: int, beyond: int)
    requires SHORTEST <= lifetime <= LONGEST
    ensures var s := Seconds(LifeByte(lifetime), beyond);
      && lifetime <= s <= LONGEST && InTable(s)
      && (forall e :: InTable(e) && lifetime <= e ==> s <= e)
      && (s == lifetime <==> InTable(lifetime))
  {
    hide CmuSeconds;
    Ends();
    var i := Entry(lifetime, 0);
    assert i < ENTRIES;
    var s := CmuSeconds(i);
    assert LifeByte(lifetime) == 128 + i;
    forall e | InTable(e) && lifetime <= e ensures s <= e {
      var k :| 0 <= k < ENTRIES && CmuSeconds(k) == e;
      if i < k {
        AscendsTo(i, k);
      }
    }
    assert InTable(s);
    if i < ENTRIES - 1 {
      AscendsTo(i, ENTRIES - 1);
    }
  }

  /** Beyond the table the ticket is born expired. */
  lemma LongestLifetimes(lifetime: int, beyond: int)
    requires lifetime > LONGEST
    ensures Seconds(LifeByte(lifetime), beyond) == 0
  {
    hide CmuSeconds, Entry;
    Ends();
    EntryAtEnd(lifetime);
    assert LifeByte(lifetime) == 128 + ENTRIES;
  }

  lemma EntryAtEnd(lifetime: int)
    requires lifetime > LONGEST
    ensures Entry(lifetime, 0) == ENTRIES
  {
    hide CmuSeconds;
    Ends();
    var i := Entry(lifetime, 0);
    if i < ENTRIES - 1 {
      AscendsTo(i, ENTRIES - 1);
    }
  }

  /** A lifetime that is not negative survives, up to rounding, exactly when the table reaches it. */
  lemma SurvivesExactly(lifetime: int, beyond: int)
    requires lifetime >= 0
    ensures Seconds(LifeByte(lifetime), beyond) > lifetime - FIVE_MINUTES <==> lifetime <= LONGEST
  {
    if lifetime < SHORTEST {
      ShortLifetimes(lifetime, beyond);
    } else if lifetime <= LONGEST {
      LongLifetimes(lifetime, beyond);
    } else {
      LongestLifetimes(lifetime, beyond);
    }
  }

  // ----- negative lifetimes

  /** How many times five minutes a negative lifetime lacks, as far as a byte can tell. */
  function Missing(lifetime: int): nat
    requires lifetime < 0
  {
    -lifetime / FIVE_MINUTES % 256
  }

  /** What a negative lifetime comes back as. */
  lemma NegativeLifetimes(lifetime: int, beyond: int)
    requires lifetime < 0
    ensures var q := Missing(lifetime);
      Seconds(LifeByte(lifetime), beyond) ==
        if q == 0 then 0
        else if q < 64 then beyond
        else if q <= 128 then CmuSeconds(128 - q)
        else (256 - q) * FIVE_MINUTES
  {
    hide CmuSeconds;
    var q := Missing(lifetime);
    assert Truncated(lifetime, FIVE_MINUTES) == -(-lifetime / FIVE_MINUTES);
    LowByte(-lifetime / FIVE_MINUTES);
    assert LifeByte(lifetime) == if q == 0 then 0 else 256 - q;
  }

  lemma LowByte(n: int)
    requires n >= 0
    ensures -n % 256 == if n % 256 == 0 then 0 else 256 - n % 256
  {
    assert n == 256 * (n / 256) + n % 256;
    assert -n == 256 * (-(n / 256)) - n % 256;
  }

  /** A negative lifetime comes back as a positive one exactly when more than 64 times five minutes are
      missing, or when something positive follows the table and it is read. */
  lemma RevivesExactly(lifetime: int, beyond: int)
    requires lifetime < 0
    ensures var q := Missing(lifetime);
      Seconds(LifeByte(lifetime), beyond) > 0 <==> q > 64 || (0 < q < 64 && beyond > 0)
  {
    hide CmuSeconds;
    NegativeLifetimes(lifetime, beyond);
    Ends();
  }

  // ----- lasting too long

  /** The lifetime, which is within the limit, is read back as one beyond it: the table rounds it up past
      the limit, or it is negative and what its low byte stands for is beyond the limit. */
  ghost predicate ReadTooLong(lifetime: int, limit: int, beyond: int) {
    if lifetime >= 0 then
      SHORTEST < lifetime <= LONGEST && !exists e :: InTable(e) && lifetime <= e <= limit
    else
      var q := Missing(lifetime);
      || (q in {0, 64} && limit < 0)
      || (0 < q < 64 && beyond > limit)
      || (64 < q <= 128 && CmuSeconds(128 - q) > limit)
      || (128 < q && (256 - q) * FIVE_MINUTES > limit)
  }

  /** A ticket outlasts a limit that its lifetime kept to exactly then. */
  lemma OutlastsExactly(lifetime: int, limit: int, beyond: int)
    requires lifetime <= limit
    ensures Seconds(LifeByte(lifetime), beyond) > limit <==> ReadTooLong(lifetime, limit, beyond)
  {
    hide CmuSeconds, LifeByte;
    Ends();
    if lifetime < 0 {
      NegativeLifetimes(lifetime, beyond);
    } else if lifetime < SHORTEST {
      ShortLifetimes(lifetime, beyond);
    } else if lifetime <= LONGEST {
      LongLifetimes(lifetime, beyond);
      var s := Seconds(LifeByte(lifetime), beyond);
      assert InTable(SHORTEST) by { assert CmuSeconds(0) == SHORTEST; }
      if s <= limit {
        assert InTable(s) && lifetime <= s <= limit;
      }
    } else {
      LongestLifetimes(lifetime, beyond);
    }
  }
}
