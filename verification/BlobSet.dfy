/** The in-memory set of small byte strings: a hash table of chains (bio4d/blob_set.c). */
module BlobSet {
  import opened Collections

  type Byte = b: int | 0 <= b < 256
  type Bytes = seq<Byte>

  const HASH_TABLE_SIZE := 99991

  // ---- The hash ------------------------------------------------------------------------------------

  /** (hash << 5) + hash + c in an unsigned int of 32 bits. */
  function Mix(hash: nat, c: Byte): nat {
    (hash * 32 + hash + c) % 0x1_0000_0000
  }

  function Djb(buf: Bytes): nat {
    if buf == [] then 5381 else Mix(Djb(buf[..|buf| - 1]), buf[|buf| - 1])
  }

  /** The same sum without the wrap-around at each step. */
  function Weighted(buf: Bytes): nat {
    if buf == [] then 5381 else 33 * Weighted(buf[..|buf| - 1]) + buf[|buf| - 1]
  }

  /** In an unsigned int. */
  function Word(n: nat): nat {
    n % 0x1_0000_0000
  }

  lemma {:induction false} MixWord(a: nat, c: Byte)
    ensures Mix(Word(a), c) == Word(33 * a + c)
  {
    var q, r := a / 0x1_0000_0000, Word(a);
    assert a == 0x1_0000_0000 * q + r;
    WordOf(33 * q, 33 * r + c);
    assert 33 * a + c == 0x1_0000_0000 * (33 * q) + (33 * r + c);
  }

  lemma {:induction false} WordOf(q: nat, n: nat)
    ensures Word(0x1_0000_0000 * q + n) == Word(n)
  {
  }

  /** The hash is the weighted sum of the bytes in 32 bits. */
  lemma {:induction false} DjbIsWeighted(buf: Bytes)
    ensures Djb(buf) == Word(Weighted(buf))
  {
    if buf != [] {
      hide Mix, Word;
      DjbIsWeighted(buf[..|buf| - 1]);
      MixWord(Weighted(buf[..|buf| - 1]), buf[|buf| - 1]);
    }
  }

  method ComputeDjb(buf: Bytes) returns (hash: nat)
    ensures hash == Djb(buf)
  {
    hash := 5381;
    for i := 0 to |buf|
      invariant hash == Djb(buf[..i])
    {
      assert buf[..i + 1][..i] == buf[..i];
      hash := Mix(hash, buf[i]);
    }
    assert buf[..|buf|] == buf;
  }

  function Slot(x: Bytes): (i: nat)
    ensures i < HASH_TABLE_SIZE
  {
    Djb(x) % HASH_TABLE_SIZE
  }

  // ---- Chains --------------------------------------------------------------------------------------

  datatype Chain = Nil | Node(value: Bytes, next: Chain)

  function Values(c: Chain): seq<Bytes> {
    match c
    case Nil => []
    case Node(v, next) => [v] + Values(next)
  }

  /** A chain holds distinct values of its slot. */
  ghost predicate ChainOk(c: Chain, slot: nat) {
    Distinct(Values(c)) && forall x :: x in Values(c) ==> Slot(x) == slot
  }

  /** The chains from slot `i` on, one after the other. */
  function From(table: seq<Chain>, i: nat): seq<Bytes>
    requires i <= |table|
    decreases |table| - i
  {
    if i == |table| then [] else Values(table[i]) + From(table, i + 1)
  }

  ghost predicate TableOk(table: seq<Chain>) {
    |table| == HASH_TABLE_SIZE && forall i {:trigger table[i]} :: 0 <= i < |table| ==> ChainOk(table[i], i)
  }

  lemma {:induction false} FromMembers(table: seq<Chain>, i: nat, x: Bytes)
    requires TableOk(table) && i <= |table|
    ensures x in From(table, i) <==> i <= Slot(x) && x in Values(table[Slot(x)])
    decreases |table| - i
  {
    if i < |table| {
      FromMembers(table, i + 1, x);
      assert ChainOk(table[i], i);
    }
  }

  /** No value stands twice in the whole table. */
  lemma {:induction false} FromDistinct(table: seq<Chain>, i: nat)
    requires TableOk(table) && i <= |table|
    ensures Distinct(From(table, i))
    decreases |table| - i
  {
    if i < |table| {
      FromDistinct(table, i + 1);
      var a, b := Values(table[i]), From(table, i + 1);
      assert ChainOk(table[i], i);
      forall j, k | 0 <= j < |a| && 0 <= k < |b| ensures a[j] != b[k] {
        FromMembers(table, i + 1, b[k]);
        assert a[j] in a && b[k] in b;
      }
    }
  }

  /** The set a table stands for: each value is looked for in the chain of its hash. */
  ghost predicate Stands(table: seq<Chain>, elements: set<Bytes>) {
    TableOk(table) && forall x :: x in elements <==> x in Values(table[Slot(x)])
  }

  lemma {:induction false} PutStands(table: seq<Chain>, elements: set<Bytes>, x: Bytes)
    requires Stands(table, elements) && x !in elements
    ensures Stands(table[Slot(x) := Node(x, table[Slot(x)])], elements + {x})
  {
    var s := Slot(x);
    var c := Node(x, table[s]);
    assert ChainOk(table[s], s);
    assert Values(c) == [x] + Values(table[s]);
    assert ChainOk(c, s);
  }

  // ---- Visiting ------------------------------------------------------------------------------------

  /** The visit stops at the first element for which the callback returns a status other than 0. */
  ghost predicate Visited(all: seq<Bytes>, callback: Bytes -> int, visited: seq<Bytes>, status: int) {
    && visited <= all
    && (forall i :: 0 <= i < |visited| - 1 ==> callback(visited[i]) == 0)
    && (status == 0 ==> visited == all && forall i :: 0 <= i < |all| ==> callback(all[i]) == 0)
    && (status != 0 ==> visited != [] && callback(visited[|visited| - 1]) == status)
  }

  /** The chains before `i` were visited, and the callback did not stop the visit. */
  ghost predicate Walking(table: seq<Chain>, i: nat, callback: Bytes -> int, visited: seq<Bytes>) {
    && i <= |table| && visited + From(table, i) == From(table, 0)
    && (forall k :: 0 <= k < |visited| ==> callback(visited[k]) == 0)
  }

  lemma {:induction false} WalkStarts(table: seq<Chain>, callback: Bytes -> int)
    ensures Walking(table, 0, callback, [])
  {
    assert [] + From(table, 0) == From(table, 0);
  }

  lemma {:induction false} WalkGoesOn(table: seq<Chain>, i: nat, callback: Bytes -> int, visited: seq<Bytes>, seen: seq<Bytes>, status: int)
    requires i < |table| && Walking(table, i, callback, visited) && Visited(Values(table[i]), callback, seen, status)
    ensures status == 0 ==> Walking(table, i + 1, callback, visited + seen)
    ensures status != 0 ==> Visited(From(table, 0), callback, visited + seen, status)
  {
    var rest := From(table, i + 1);
    assert visited + (Values(table[i]) + rest) == (visited + Values(table[i])) + rest;
    if status != 0 {
      assert visited + seen <= visited + (Values(table[i]) + rest);
    }
  }

  lemma {:induction false} WalkEnds(table: seq<Chain>, callback: Bytes -> int, visited: seq<Bytes>)
    requires Walking(table, |table|, callback, visited)
    ensures Visited(From(table, 0), callback, visited, 0)
  {
    assert visited + [] == visited;
  }

  class HashSet {
    const table: array<Chain>
    var forEachLevel: nat
    ghost var elements: set<Bytes>

    ghost predicate Valid() reads this, table {
      Stands(table[..], elements)
    }

    constructor ()
      ensures Valid() && elements == {} && forEachLevel == 0 && fresh(table)
    {
      table := new Chain[HASH_TABLE_SIZE](_ => Nil);
      forEachLevel, elements := 0, {};
    }

    method Exists(x: Bytes) returns (found: bool)
      requires Valid()
      ensures found <==> x in elements
    {
      var hash := ComputeDjb(x);
      var e := table[hash % HASH_TABLE_SIZE];
      assert table[..][Slot(x)] == e;
      found := false;
      while e.Node? && !found
        invariant x in elements <==> found || x in Values(e)
        decreases e, !found
      {
        if e.value == x {
          found := true;
        } else {
          e := e.next;
        }
      }
    }

    /** Adds an element, and tells whether it was there. */
    method Put(x: Bytes) returns (was: bool)
      requires Valid() && forEachLevel == 0
      modifies this`elements, table
      ensures Valid()
      ensures was <==> x in old(elements)
      ensures elements == old(elements) + {x}
    {
      was := Exists(x);
      if was {
        return;
      }
      var hash := ComputeDjb(x);
      var slot := hash % HASH_TABLE_SIZE;
      ghost var before := table[..];
      PutStands(before, elements, x);
      table[slot] := Node(x, table[slot]);
      elements := elements + {x};
      assert table[..] == before[Slot(x) := Node(x, before[Slot(x)])];
    }

    /** Visits the elements, each at most once, until the callback stops it; without a stop, each exactly once. */
    method ForEach(callback: Bytes -> int) returns (status: int, visited: seq<Bytes>)
      requires Valid()
      modifies this`forEachLevel
      ensures Valid() && forEachLevel == old(forEachLevel)
      ensures Distinct(visited) && forall x :: x in visited ==> x in elements
      ensures status == 0 ==> (forall x :: x in elements ==> x in visited) && forall x :: x in elements ==> callback(x) == 0
      ensures status != 0 ==> visited != [] && callback(visited[|visited| - 1]) == status
      ensures forall i :: 0 <= i < |visited| - 1 ==> callback(visited[i]) == 0
    {
      forEachLevel := forEachLevel + 1;
      ghost var all := From(table[..], 0);
      status, visited := Walk(callback);
      FromDistinct(table[..], 0);
      forall x ensures x in all <==> x in elements {
        FromMembers(table[..], 0, x);
      }
      forEachLevel := forEachLevel - 1;
    }

    /** The two loops of for_each. */
    method Walk(callback: Bytes -> int) returns (status: int, visited: seq<Bytes>)
      requires Valid()
      ensures Visited(From(table[..], 0), callback, visited, status)
    {
      hide Visited, Walking, ChainOk;
      status, visited := 0, [];
      WalkStarts(table[..], callback);
      for i := 0 to HASH_TABLE_SIZE
        invariant status == 0 && Walking(table[..], i, callback, visited)
      {
        var seen;
        status, seen := WalkChain(table[i], callback);
        WalkGoesOn(table[..], i, callback, visited, seen, status);
        visited := visited + seen;
        if status != 0 {
          return;
        }
      }
      WalkEnds(table[..], callback, visited);
    }

    method WalkChain(chain: Chain, callback: Bytes -> int) returns (status: int, visited: seq<Bytes>)
      ensures Visited(Values(chain), callback, visited, status)
    {
      var e := chain;
      status, visited := 0, [];
      while e.Node?
        invariant status == 0 && visited + Values(e) == Values(chain)
        invariant forall k :: 0 <= k < |visited| ==> callback(visited[k]) == 0
        decreases e
      {
        status := callback(e.value);
        assert visited + Values(e) == (visited + [e.value]) + Values(e.next);
        visited := visited + [e.value];
        if status != 0 {
          return;
        }
        e := e.next;
      }
    }
  }

  // ---- Any sequence of operations ------------------------------------------------------------------

  /** A run of puts against the mathematical set. */
  method PutAll(xs: seq<Bytes>) returns (all: HashSet, firsts: seq<bool>)
    ensures fresh(all) && fresh(all.table) && all.Valid() && all.forEachLevel == 0
    ensures all.elements == set x | x in xs
    ensures |firsts| == |xs| && forall i :: 0 <= i < |xs| ==> (firsts[i] <==> xs[i] !in xs[..i])
  {
    hide Stands;
    all := new HashSet();
    firsts := [];
    for i := 0 to |xs|
      invariant fresh(all) && fresh(all.table) && all.Valid() && all.forEachLevel == 0
      invariant all.elements == set x | x in xs[..i]
      invariant |firsts| == i && forall k :: 0 <= k < i ==> (firsts[k] <==> xs[k] !in xs[..k])
    {
      var was := all.Put(xs[i]);
      assert xs[..i + 1] == xs[..i] + [xs[i]];
      firsts := firsts + [!was];
    }
    assert xs[..|xs|] == xs;
  }
}
