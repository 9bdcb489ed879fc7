/**
  The merge of blob lists from several databases (sync/pgsql/jaccard.go): goroutines count each blob in one
  map under a lock, and a blob counted once for every database is deleted.
 */
module Jaccard {
  import opened Text
  import opened Collections

  /** The counters are eight bits wide. */
  const WIDTH := 256

  function Get(exists_: map<string, nat>, blob: string): nat {
    if blob in exists_ then exists_[blob] else 0
  }

  /** One row: increment the counter, and delete it when it equals the number of databases, as eight bits. */
  function Bump(exists_: map<string, nat>, blob: string, databases: nat): map<string, nat> {
    var count := (Get(exists_, blob) + 1) % WIDTH;
    if count == databases % WIDTH then exists_ - {blob} else exists_[blob := count]
  }

  // ---- Counting ------------------------------------------------------------------------------------

  /** Each database lists its blobs once. */
  ghost predicate Listings(lists: seq<seq<string>>) {
    forall d {:trigger lists[d]} :: 0 <= d < |lists| ==> Distinct(lists[d])
  }

  /** How many databases list a blob. */
  function Listed(lists: seq<seq<string>>, blob: string): (n: nat)
    ensures n <= |lists|
  {
    if lists == [] then 0
    else Listed(lists[..|lists| - 1], blob) + if blob in lists[|lists| - 1] then 1 else 0
  }

  ghost predicate Union(lists: seq<seq<string>>, blob: string) {
    exists d :: 0 <= d < |lists| && blob in lists[d]
  }

  ghost predicate Intersection(lists: seq<seq<string>>, blob: string) {
    forall d :: 0 <= d < |lists| ==> blob in lists[d]
  }

  lemma {:induction false} ListedExtremes(lists: seq<seq<string>>, blob: string)
    ensures Listed(lists, blob) > 0 <==> Union(lists, blob)
    ensures Listed(lists, blob) == |lists| <==> Intersection(lists, blob)
  {
    if lists != [] {
      var rest, last := lists[..|lists| - 1], lists[|lists| - 1];
      ListedExtremes(rest, blob);
      UnionSnoc(rest, last, blob);
      IntersectionSnoc(rest, last, blob);
      assert lists == rest + [last];
    }
  }

  lemma {:induction false} UnionSnoc(rest: seq<seq<string>>, last: seq<string>, blob: string)
    ensures Union(rest + [last], blob) <==> Union(rest, blob) || blob in last
  {
    var lists := rest + [last];
    assert lists[|rest|] == last;
    assert forall d :: 0 <= d < |rest| ==> lists[d] == rest[d];
  }

  lemma {:induction false} IntersectionSnoc(rest: seq<seq<string>>, last: seq<string>, blob: string)
    ensures Intersection(rest + [last], blob) <==> Intersection(rest, blob) && blob in last
  {
    var lists := rest + [last];
    assert lists[|rest|] == last;
    assert forall d :: 0 <= d < |rest| ==> lists[d] == rest[d];
  }

  /** A counter that reaches the number of databases starts over. */
  function Period(databases: nat): (p: nat)
    ensures 0 < p <= WIDTH
  {
    if databases % WIDTH == 0 then WIDTH else databases % WIDTH
  }

  lemma {:induction false} PeriodIs(databases: nat)
    ensures Period(databases) == if databases % 256 == 0 then 256 else databases % 256
  {
  }

  /** Counting up from 0, and starting over at `p`. */
  function Cycle(n: nat, p: nat): (c: nat)
    requires p > 0
    ensures c < p
  {
    if n == 0 then 0
    else
      var c := Cycle(n - 1, p) + 1;
      if c == p then 0 else c
  }

  lemma {:induction false} CycleFirst(n: nat, p: nat)
    requires p > 0
    ensures n < p ==> Cycle(n, p) == n
    ensures n == p ==> Cycle(n, p) == 0
  {
    if n > 0 {
      CycleFirst(n - 1, p);
    }
  }

  /** The map after `Listed` counts of every blob. */
  ghost predicate Counts(exists_: map<string, nat>, lists: seq<seq<string>>, databases: nat) {
    forall b :: Get(exists_, b) == Cycle(Listed(lists, b), Period(databases)) && (b in exists_ <==> Get(exists_, b) != 0)
  }

  /** The remainder of the division. */
  lemma {:induction false} CycleIsMod(n: nat, p: nat)
    requires p > 0
    ensures Cycle(n, p) == n % p
  {
    if n > 0 {
      CycleIsMod(n - 1, p);
      ModNext(n - 1, p);
    } else {
      ModOf(0, 0, p);
    }
  }

  lemma {:induction false} Multiple(k: nat, p: nat)
    requires k > 0
    ensures k * p >= p
  {
  }

  lemma {:induction false} OnlyZero(k: int, p: nat, d: int)
    requires k * p == d && d < p && -d < p
    ensures d == 0
  {
    assert (-k) * p == -d;
    if k > 0 {
      Multiple(k, p);
    } else if k < 0 {
      Multiple(-k, p);
    }
  }

  /** The remainder is unique. */
  lemma {:induction false} ModOf(q: nat, r: nat, p: nat)
    requires r < p
    ensures (q * p + r) % p == r
  {
    var n := q * p + r;
    var q', r' := n / p, n % p;
    assert n == q' * p + r';
    assert (q - q') * p == q * p - q' * p;
    OnlyZero(q - q', p, r' - r);
  }

  lemma {:induction false} ModNext(n: nat, p: nat)
    requires p > 0
    ensures (n + 1) % p == if n % p + 1 == p then 0 else n % p + 1
  {
    var q, r := n / p, n % p;
    assert n == q * p + r;
    if r + 1 == p {
      assert n + 1 == (q + 1) * p + 0;
      ModOf(q + 1, 0, p);
    } else {
      assert n + 1 == q * p + (r + 1);
      ModOf(q, r + 1, p);
    }
  }

  /** Prefixes of the lists. */
  function Taken(lists: seq<seq<string>>, pos: seq<nat>): (t: seq<seq<string>>)
    requires |pos| == |lists| && forall d :: 0 <= d < |lists| ==> pos[d] <= |lists[d]|
    ensures |t| == |lists|
  {
    seq(|lists|, d requires 0 <= d < |lists| => lists[d][..pos[d]])
  }

  /** One more row of one database: its blob is counted once more, and no other. */
  lemma {:induction false} ListedNext(before: seq<seq<string>>, d: nat, x: string, b: string)
    requires d < |before| && x !in before[d]
    ensures Listed(before[d := before[d] + [x]], b) == Listed(before, b) + if b == x then 1 else 0
    decreases |before|
  {
    var last := |before| - 1;
    var after := before[d := before[d] + [x]];
    if d < last {
      ListedNext(before[..last], d, x, b);
      assert after[..last] == before[..last][d := before[..last][d] + [x]];
    } else {
      assert after[..last] == before[..last];
    }
  }

  lemma {:induction false} BumpCounts(exists_: map<string, nat>, before: seq<seq<string>>, d: nat, x: string, databases: nat)
    requires Counts(exists_, before, databases) && d < |before| && x !in before[d]
    ensures Counts(Bump(exists_, x, databases), before[d := before[d] + [x]], databases)
  {
    var after := before[d := before[d] + [x]];
    var next, p := Bump(exists_, x, databases), Period(databases);
    forall b ensures Get(next, b) == Cycle(Listed(after, b), p) && (b in next <==> Get(next, b) != 0) {
      ListedNext(before, d, x, b);
    }
  }

  // ---- The merge -----------------------------------------------------------------------------------

  class Answer {
    const databases: nat
    var exists_: map<string, nat>

    constructor (databases: nat)
      ensures this.databases == databases && exists_ == map[]
    {
      this.databases, exists_ := databases, map[];
    }

    /** The critical section. */
    method AddRow(blob: string)
      modifies this
      ensures exists_ == Bump(old(exists_), blob, databases)
    {
      var count := (Get(exists_, blob) + 1) % WIDTH;
      exists_ := exists_[blob := count];
      if count == databases % WIDTH {
        exists_ := exists_ - {blob};
      }
    }
  }

  function Remaining(lists: seq<seq<string>>, pos: seq<nat>, k: nat): nat
    requires k <= |lists| == |pos| && forall d :: 0 <= d < |lists| ==> pos[d] <= |lists[d]|
  {
    if k == 0 then 0 else Remaining(lists, pos, k - 1) + |lists[k - 1]| - pos[k - 1]
  }

  lemma {:induction false} RemainingNext(lists: seq<seq<string>>, pos: seq<nat>, d: nat, k: nat)
    requires k <= |lists| == |pos| && (forall d :: 0 <= d < |lists| ==> pos[d] <= |lists[d]|)
    requires d < |lists| && pos[d] < |lists[d]|
    ensures Remaining(lists, pos[d := pos[d] + 1], k) == Remaining(lists, pos, k) - if d < k then 1 else 0
  {
    if k > 0 {
      RemainingNext(lists, pos, d, k - 1);
    }
  }

  ghost predicate InBounds(lists: seq<seq<string>>, pos: seq<nat>) {
    |pos| == |lists| && forall d :: 0 <= d < |lists| ==> pos[d] <= |lists[d]|
  }

  lemma {:induction false} TakenNext(lists: seq<seq<string>>, pos: seq<nat>, d: nat)
    requires Listings(lists) && InBounds(lists, pos) && d < |lists| && pos[d] < |lists[d]|
    ensures var t, x := Taken(lists, pos), lists[d][pos[d]];
      x !in t[d] && Taken(lists, pos[d := pos[d] + 1]) == t[d := t[d] + [x]]
  {
    assert Distinct(lists[d]);
    assert lists[d][..pos[d] + 1] == lists[d][..pos[d]] + [lists[d][pos[d]]];
  }

  /** One row of one database. */
  method NextRow(an: Answer, lists: seq<seq<string>>, pos: seq<nat>, d: nat) returns (pos': seq<nat>)
    requires Listings(lists) && InBounds(lists, pos) && d < |lists| && pos[d] < |lists[d]|
    requires an.databases == |lists| && Counts(an.exists_, Taken(lists, pos), |lists|)
    modifies an
    ensures InBounds(lists, pos') && pos' == pos[d := pos[d] + 1]
    ensures Counts(an.exists_, Taken(lists, pos'), |lists|)
  {
    TakenNext(lists, pos, d);
    BumpCounts(an.exists_, Taken(lists, pos), d, lists[d][pos[d]], |lists|);
    an.AddRow(lists[d][pos[d]]);
    pos' := pos[d := pos[d] + 1];
  }

  /** The blob is left in the map. */
  ghost predicate Left(lists: seq<seq<string>>, blob: string) {
    Listed(lists, blob) % Period(|lists|) != 0
  }

  /** jaccard(): whichever database's row comes next, the map ends with the blobs whose count is not 0. */
  method Merge(lists: seq<seq<string>>) returns (missing: set<string>)
    requires Listings(lists)
    ensures forall b :: b in missing <==> Left(lists, b)
  {
    var an := new Answer(|lists|);
    var pos: seq<nat> := seq(|lists|, _ => 0);
    NothingListed(Taken(lists, pos));
    while exists d :: 0 <= d < |lists| && pos[d] < |lists[d]|
      invariant InBounds(lists, pos) && an.databases == |lists|
      invariant Counts(an.exists_, Taken(lists, pos), |lists|)
      decreases Remaining(lists, pos, |lists|)
    {
      var d: nat :| d < |lists| && pos[d] < |lists[d]|;
      RemainingNext(lists, pos, d, |lists|);
      pos := NextRow(an, lists, pos, d);
    }
    forall d | 0 <= d < |lists| ensures Taken(lists, pos)[d] == lists[d] {
      assert pos[d] == |lists[d]|;
    }
    assert Taken(lists, pos) == lists;
    forall b ensures b in an.exists_ <==> Left(lists, b) {
      CycleIsMod(Listed(lists, b), Period(|lists|));
    }
    missing := an.exists_.Keys;
  }

  lemma {:induction false} NothingListed(lists: seq<seq<string>>)
    requires forall d :: 0 <= d < |lists| ==> lists[d] == []
    ensures forall b :: Listed(lists, b) == 0
  {
    if lists != [] {
      NothingListed(lists[..|lists| - 1]);
    }
  }

  // ---- When the merge is right ---------------------------------------------------------------------

  /** The blobs some database has and some database lacks. */
  ghost predicate Missing(lists: seq<seq<string>>, blob: string) {
    Union(lists, blob) && !Intersection(lists, blob)
  }

  lemma {:induction false} RightUpTo256(lists: seq<seq<string>>, blob: string)
    requires |lists| <= 256
    ensures Left(lists, blob) <==> Missing(lists, blob)
  {
    WrongExactly(lists, blob);
    if lists != [] {
      assert Period(|lists|) == |lists|;
      CycleIsMod(Listed(lists, blob), |lists|);
      CycleFirst(Listed(lists, blob), |lists|);
    }
  }

  /**
    For any number of databases, the result is wrong for a blob exactly when it is in some but not all of
    them and the number that list it is a multiple of the period, or when it is in all of them and their
    number is not.
   */
  lemma {:induction false} WrongExactly(lists: seq<seq<string>>, blob: string)
    ensures var n := Listed(lists, blob);
      var p := if |lists| % 256 == 0 then 256 else |lists| % 256;
      !(Left(lists, blob) <==> Missing(lists, blob)) <==> (0 < n < |lists| && n % p == 0) || (n == |lists| && |lists| % p != 0)
  {
    hide Period, Listed, Union, Intersection;
    PeriodIs(|lists|);
    ListedExtremes(lists, blob);
    ModOf(0, 0, Period(|lists|));
  }

  lemma {:induction false} FirstHave(lists: seq<seq<string>>, k: nat, blob: string)
    requires forall d {:trigger lists[d]} :: 0 <= d < |lists| ==> lists[d] == if d < k then [blob] else []
    ensures Listed(lists, blob) == if k < |lists| then k else |lists|
  {
    if lists != [] {
      FirstHave(lists[..|lists| - 1], k, blob);
    }
  }

  /** For every number of databases above 256 there are lists that the merge gets wrong. */
  lemma {:induction false} WrongAbove256(databases: nat, blob: string) returns (lists: seq<seq<string>>)
    requires databases > 256
    ensures |lists| == databases && Listings(lists)
    ensures Missing(lists, blob) && !Left(lists, blob)
  {
    var p := Period(databases);
    lists := seq(databases, d => if d < p then [blob] else []);
    FirstHave(lists, p, blob);
    CycleIsMod(p, p);
    CycleFirst(p, p);
    ListedExtremes(lists, blob);
  }

  /** The result is the union without the intersection. */
  ghost predicate Right(lists: seq<seq<string>>) {
    forall blob :: Left(lists, blob) <==> Missing(lists, blob)
  }

  /** The merge is right for all lists of that many databases if and only if there are at most 256. */
  lemma {:induction false} RightExactly(databases: nat)
    ensures (forall lists :: |lists| == databases && Listings(lists) ==> Right(lists)) <==> databases <= 256
  {
    if databases <= 256 {
      forall lists | |lists| == databases && Listings(lists) ensures Right(lists) {
        forall blob ensures Left(lists, blob) <==> Missing(lists, blob) {
          RightUpTo256(lists, blob);
        }
      }
    } else {
      var lists := WrongAbove256(databases, "");
      assert !Right(lists);
    }
  }
}
