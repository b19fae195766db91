/** The hash table: an array of buckets, each a chain of entries.  Adding a key that is in the table
    already hides the older entry until the newer one is deleted. */
module Hash {
  import opened Options

  const HASH_DEFAULT_SIZE: nat := 128

  class Entry<K, E> {
    const key: K
    var elt: E
    var next: Entry?<K, E>

    constructor (key: K, elt: E, next: Entry?<K, E>)
      ensures this.key == key && this.elt == elt && this.next == next
    {
      this.key, this.elt, this.next := key, elt, next;
    }
  }

  /** The chain that starts at an entry. */
  ghost predicate Linked<K, E>(first: Entry?<K, E>, ns: seq<Entry<K, E>>)
    reads ns`next
  {
    && first == (if ns == [] then null else ns[0])
    && forall a {:trigger ns[a].next} :: 0 <= a < |ns| ==> ns[a].next == if a + 1 < |ns| then ns[a + 1] else null
  }

  ghost predicate Apart<K, E>(ns: seq<Entry<K, E>>, ms: seq<Entry<K, E>>) {
    forall n :: n in ns ==> n !in ms
  }

  ghost predicate Different<K, E>(ns: seq<Entry<K, E>>) {
    forall a, b :: 0 <= a < b < |ns| ==> ns[a] != ns[b]
  }

  /** What the entries of a chain hold. */
  ghost function Held<K, E>(ns: seq<Entry<K, E>>): (ps: seq<(K, E)>)
    reads ns`elt
    ensures |ps| == |ns| && forall a :: 0 <= a < |ns| ==> ps[a] == (ns[a].key, ns[a].elt)
  {
    if ns == [] then [] else
    assert forall n :: n in ns[1..] ==> n in ns;
    [(ns[0].key, ns[0].elt)] + Held(ns[1..])
  }

  /** The elements with a key, in order. */
  ghost function Elts<K, E>(ps: seq<(K, E)>, key: K): seq<E> {
    if ps == [] then [] else (if ps[0].0 == key then [ps[0].1] else []) + Elts(ps[1..], key)
  }

  lemma {:induction false} EltsSkip<K, E>(ps: seq<(K, E)>, a: nat, key: K)
    requires a <= |ps| && forall b :: 0 <= b < a ==> ps[b].0 != key
    ensures Elts(ps, key) == Elts(ps[a..], key)
  {
    if a == 0 {
      assert ps[a..] == ps;
    } else {
      EltsSkip(ps[1..], a - 1, key);
      assert ps[1..][a - 1..] == ps[a..];
    }
  }

  ghost function Without<T>(s: seq<T>, a: nat): (r: seq<T>)
    requires a < |s|
    ensures |r| == |s| - 1
  {
    s[..a] + s[a + 1..]
  }

  lemma WithoutAt<T>(s: seq<T>, a: nat)
    requires a < |s|
    ensures forall c {:trigger Without(s, a)[c]} :: 0 <= c < |s| - 1 ==>
      Without(s, a)[c] == if c < a then s[c] else s[c + 1]
    ensures forall x :: x in Without(s, a) ==> x in s
  {
  }

  /** Taking out the first pair with a key takes the first element from that key's, and no other. */
  lemma {:induction false} EltsRemoved<K, E>(ps: seq<(K, E)>, a: nat, key: K)
    requires a < |ps|
    requires ps[a].0 == key ==> forall b :: 0 <= b < a ==> ps[b].0 != key
    ensures ps[a].0 != key ==> Elts(Without(ps, a), key) == Elts(ps, key)
    ensures ps[a].0 == key ==> Elts(ps, key) == [ps[a].1] + Elts(Without(ps, a), key)
  {
    if a == 0 {
      assert Without(ps, 0) == ps[1..];
    } else {
      EltsRemoved(ps[1..], a - 1, key);
      assert Without(ps, a)[1..] == Without(ps[1..], a - 1);
    }
  }

  /** Replacing it replaces that key's first element, and no other. */
  lemma {:induction false} EltsReplaced<K, E>(ps: seq<(K, E)>, a: nat, e: E, key: K)
    requires a < |ps|
    requires ps[a].0 == key ==> forall b :: 0 <= b < a ==> ps[b].0 != key
    ensures ps[a].0 != key ==> Elts(ps[a := (ps[a].0, e)], key) == Elts(ps, key)
    ensures ps[a].0 == key ==> Elts(ps, key) != [] && Elts(ps[a := (ps[a].0, e)], key) == [e] + Elts(ps, key)[1..]
  {
    if a == 0 {
      assert ps[0 := (ps[0].0, e)][1..] == ps[1..];
    } else {
      EltsReplaced(ps[1..], a - 1, e, key);
      assert ps[a := (ps[a].0, e)][1..] == ps[1..][a - 1 := (ps[a].0, e)];
    }
  }

  lemma EltsWithout<K, E>(ps: seq<(K, E)>, a: nat, key: K)
    requires a < |ps| && ps[a].0 == key && forall b :: 0 <= b < a ==> ps[b].0 != key
    ensures Elts(ps, key) == [ps[a].1] + Elts(Without(ps, a), key)
    ensures forall k | k != key :: Elts(Without(ps, a), k) == Elts(ps, k)
  {
    EltsRemoved(ps, a, key);
    forall k | k != key ensures Elts(Without(ps, a), k) == Elts(ps, k) {
      EltsRemoved(ps, a, k);
    }
  }

  lemma EltsWith<K, E>(ps: seq<(K, E)>, a: nat, key: K, e: E)
    requires a < |ps| && ps[a].0 == key && forall b :: 0 <= b < a ==> ps[b].0 != key
    ensures Elts(ps, key) != [] && Elts(ps[a := (key, e)], key) == [e] + Elts(ps, key)[1..]
    ensures forall k | k != key :: Elts(ps[a := (key, e)], k) == Elts(ps, k)
  {
    EltsReplaced(ps, a, e, key);
    forall k | k != key ensures Elts(ps[a := (key, e)], k) == Elts(ps, k) {
      EltsReplaced(ps, a, e, k);
    }
  }

  lemma HeldWithout<K, E>(ns: seq<Entry<K, E>>, a: nat)
    requires a < |ns|
    ensures Held(Without(ns, a)) == Without(Held(ns), a)
  {
    WithoutAt(ns, a);
    WithoutAt(Held(ns), a);
    hide Without;
  }

  class HashTable<K(==,!new), E> {
    const keyfun: K -> nat
    const buckets: array<Entry?<K, E>>
    ghost var chains: seq<seq<Entry<K, E>>>
    ghost var entries: set<Entry<K, E>>

    ghost predicate Valid()
      reads this`chains, this`entries, buckets, entries`next
    {
      && |chains| == buckets.Length == HASH_DEFAULT_SIZE
      && (forall i, n :: 0 <= i < |chains| && n in chains[i] ==> n in entries)
      && (forall i :: 0 <= i < |chains| ==> Linked(buckets[i], chains[i]) && Different(chains[i]))
      && (forall i, j :: 0 <= i < j < |chains| ==> Apart(chains[i], chains[j]))
    }

    function Bucket(key: K): (i: nat)
      ensures i < HASH_DEFAULT_SIZE
    {
      keyfun(key) % HASH_DEFAULT_SIZE
    }

    /** What the table holds under a key, newest first. */
    ghost function Stack(key: K): seq<E>
      requires Valid()
      reads this`chains, this`entries, buckets, entries
    {
      Elts(Held(chains[Bucket(key)]), key)
    }

    constructor (keyfun: K -> nat)
      ensures Valid() && this.keyfun == keyfun && fresh(buckets) && entries == {} && forall key :: Stack(key) == []
    {
      this.keyfun := keyfun;
      buckets := new Entry?<K, E>[HASH_DEFAULT_SIZE](i => null);
      chains, entries := seq(HASH_DEFAULT_SIZE, i => []), {};
    }

    method Find(key: K) returns (e: Option<E>)
      requires Valid()
      ensures e == if Stack(key) == [] then None else Some(Stack(key)[0])
    {
      var b := buckets[Bucket(key)];
      ghost var ns, a := chains[Bucket(key)], 0;
      while b != null
        invariant a <= |ns| && b == (if a < |ns| then ns[a] else null)
        invariant forall c :: 0 <= c < a ==> ns[c].key != key
        decreases |ns| - a
      {
        if key == b.key {
          EltsSkip(Held(ns), a, key);
          return Some(b.elt);
        }
        b, a := b.next, a + 1;
      }
      EltsSkip(Held(ns), a, key);
      e := None;
    }

    /** Links a new entry in front of a chain. */
    method Link(i: nat, key: K, e: E) returns (nb: Entry<K, E>)
      requires Valid() && i < |chains|
      modifies this`chains, this`entries, buckets
      ensures Valid() && fresh(nb) && entries == old(entries) + {nb} && nb.key == key && nb.elt == e
      ensures chains == old(chains)[i := [nb] + old(chains[i])]
    {
      nb := new Entry(key, e, buckets[i]);
      buckets[i] := nb;
      chains, entries := chains[i := [nb] + chains[i]], entries + {nb};
      assert chains[i][1..] == old(chains[i]);
    }

    /** Adds an element in front of those with the same key. */
    method Add(key: K, e: E)
      requires Valid()
      modifies this`chains, this`entries, buckets
      ensures Valid() && fresh(entries - old(entries))
      ensures Stack(key) == [e] + old(Stack(key))
      ensures forall k :: k != key ==> Stack(k) == old(Stack(k))
    {
      var i := Bucket(key);
      var nb := Link(i, key, e);
      assert chains[i][1..] == old(chains[i]);
      assert Held(chains[i]) == [(key, e)] + old(Held(chains[i]));
    }

    /** Replaces the newest element with the key. */
    method Update(key: K, e: E) returns (ok: bool)
      requires Valid()
      modifies entries`elt
      ensures Valid() && ok == (old(Stack(key)) != [])
      ensures Stack(key) == if ok then [e] + old(Stack(key))[1..] else []
      ensures forall k :: k != key ==> Stack(k) == old(Stack(k))
    {
      var b := buckets[Bucket(key)];
      ghost var ns, a := chains[Bucket(key)], 0;
      while b != null
        invariant a <= |ns| && b == (if a < |ns| then ns[a] else null)
        invariant forall c :: 0 <= c < a ==> ns[c].key != key
        decreases |ns| - a
      {
        if key == b.key {
          ghost var ps := Held(ns);
          EltsWith(ps, a, key, e);
          b.elt := e;
          assert Held(ns) == ps[a := (key, e)];
          forall j | 0 <= j < |chains| && j != Bucket(key) ensures Held(chains[j]) == old(Held(chains[j])) {
            assert b !in chains[j];
          }
          return true;
        }
        b, a := b.next, a + 1;
      }
      EltsSkip(Held(ns), a, key);
      ok := false;
    }

    /** Takes an entry out of its chain. */
    method Unlink(i: nat, b: Entry<K, E>, prev: Entry?<K, E>, ghost a: nat)
      requires Valid() && i < |chains| && a < |chains[i]| && b == chains[i][a]
      requires prev == if a > 0 then chains[i][a - 1] else null
      modifies this`chains, buckets, entries`next
      ensures Valid() && chains == old(chains)[i := Without(old(chains[i]), a)]
    {
      ghost var ns := chains[i];
      WithoutAt(ns, a);
      hide Without;
      if prev == null {
        buckets[i] := b.next;
      } else {
        prev.next := b.next;
      }
      chains := chains[i := Without(ns, a)];
      forall j | 0 <= j < |chains| && j != i ensures Linked(buckets[j], chains[j]) {
        assert prev != null ==> prev !in chains[j];
      }
    }

    /** Takes out an entry that is the first with its key. */
    method Drop(key: K, b: Entry<K, E>, prev: Entry?<K, E>, ghost a: nat)
      requires Valid() && a < |chains[Bucket(key)]| && b == chains[Bucket(key)][a]
      requires prev == if a > 0 then chains[Bucket(key)][a - 1] else null
      requires b.key == key && forall c :: 0 <= c < a ==> chains[Bucket(key)][c].key != key
      modifies this`chains, buckets, entries`next
      ensures Valid() && old(Stack(key)) == [b.elt] + Stack(key)
      ensures forall k :: k != key ==> Stack(k) == old(Stack(k))
    {
      hide Elts, Linked, Different, Apart, HashTable.Valid;
      Sized();
      var i := Bucket(key);
      EltsWithout(Held(chains[i]), a, key);
      HeldWithout(chains[i], a);
      hide Held, Without;
      Unlink(i, b, prev, a);
      Sized();
    }

    lemma Sized()
      requires Valid()
      ensures |chains| == HASH_DEFAULT_SIZE
    {
    }

    /** Takes out the newest element with the key. */
    method Del(key: K) returns (e: Option<E>)
      requires Valid()
      modifies this`chains, buckets, entries`next
      ensures Valid() && e == (if old(Stack(key)) == [] then None else Some(old(Stack(key))[0]))
      ensures Stack(key) == if e.None? then [] else old(Stack(key))[1..]
      ensures forall k :: k != key ==> Stack(k) == old(Stack(k))
    {
      var i := Bucket(key);
      var b, prev: Entry?<K, E> := buckets[i], null;
      ghost var ns, a := chains[i], 0;
      while b != null
        invariant a <= |ns| && b == (if a < |ns| then ns[a] else null) && prev == (if a > 0 then ns[a - 1] else null)
        invariant forall c :: 0 <= c < a ==> ns[c].key != key
        decreases |ns| - a
      {
        if key == b.key {
          e := Some(b.elt);
          Drop(key, b, prev, a);
          return;
        }
        prev, b, a := b, b.next, a + 1;
      }
      EltsSkip(Held(ns), a, key);
      e := None;
    }
  }
}
