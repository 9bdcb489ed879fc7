/**
  Every step of the compiled network keeps the invariant `Network.Inv`.

  Flows move through all ops in lockstep and every port takes exactly the value that
  flow should deliver there.  There is one section for each kind of step.  Each says
  what the step does to the ops, to the channels, to the puts, to the counts of the
  flow worker and to the log, one lemma apiece, and `StepKeeps` puts them together.
 */
module Lockstep {
  import opened Text
  import opened Rummy
  import opened FlowOps
  import opened Network

  lemma {:induction false} SumUpdate(xs: seq<nat>, i: nat, x: nat)
    requires i < |xs|
    ensures Sum(xs[i := x]) + xs[i] == Sum(xs) + x
  {
    var n := |xs| - 1;
    if i == n {
      assert xs[i := x][..n] == xs[..n];
    } else {
      assert xs[i := x][..n] == xs[..n][i := x];
      SumUpdate(xs[..n], i, x);
    }
  }

  lemma {:induction false} SumZero(xs: seq<nat>)
    requires Sum(xs) == 0
    ensures forall i :: 0 <= i < |xs| ==> xs[i] == 0
  {
    if xs != [] {
      SumZero(xs[..|xs| - 1]);
    }
  }

  lemma {:induction false} SumZeros(xs: seq<nat>)
    requires forall i :: 0 <= i < |xs| ==> xs[i] == 0
    ensures Sum(xs) == 0
  {
    if xs != [] {
      SumZeros(xs[..|xs| - 1]);
    }
  }

  lemma {:induction false} SumPositive(xs: seq<nat>)
    requires 0 < Sum(xs)
    ensures exists i :: 0 <= i < |xs| && 0 < xs[i]
  {
    if xs[|xs| - 1] == 0 {
      SumPositive(xs[..|xs| - 1]);
    }
  }

  lemma {:induction false} PutsOfAt(i: nat, width: nat, f: nat, v: Val, x: Put)
    ensures PutsOf(i, width, f, v)[x] == if x.c.src == i && x.c.k < width && x.f == f && x.v == v then 1 else 0
  {
    if width > 0 {
      PutsOfAt(i, width - 1, f, v, x);
    }
  }

  ghost predicate Good(net: Net, e: Table, s: Sys) {
    WellFormed(net) && AllCountable(net) && Sized(net, e) && Inv(net, e, s)
  }

  // ---- The worker reads another record ----------------------------------------------------

  lemma {:induction false} BeginCounts(w: World, net: Net, e: Table, s: Sys)
    requires Good(net, e, s) && Enabled(net, s, Begin)
    ensures CountsOk(net, Apply(w, net, s, Begin))
  {
    var s' := Apply(w, net, s, Begin);
    SumZeros(BehindFlags(net, s));
    assert BehindFlags(net, s') == GatedFlags(net.ops);
  }

  lemma {:induction false} BeginChans(w: World, net: Net, e: Table, s: Sys)
    requires Good(net, e, s) && Enabled(net, s, Begin)
    ensures OpsOk(net, e, Apply(w, net, s, Begin))
    ensures ChansOk(net, e, Apply(w, net, s, Begin))
  {
    hide LogOk, ResultsOk, AllCountable, ReadersMatch, PutsOk;
  }

  lemma {:induction false} BeginLog(w: World, net: Net, e: Table, s: Sys)
    requires Good(net, e, s) && Enabled(net, s, Begin)
    ensures LogOk(net, e, Apply(w, net, s, Begin))
  {
    hide ChanOk, ChansOk, OpWired, ReadersMatch, PutsOk, ResultsOk, AllCountable, OpOk;
  }

  // ---- Steps that move no value ------------------------------------------------------------

  /** Nothing was sent or received in the step. */
  ghost predicate Quiet(net: Net, s: Sys, s': Sys) {
    && Shaped(net, s) && Shaped(net, s')
    && s'.n == s.n && s'.puts == s.puts && s'.log == s.log && s'.busy == s.busy
    && (forall i :: 0 <= i < |net.ops| ==> (s'.ops[i] == Idle(s.n) <==> s.ops[i] == Idle(s.n)))
    && (forall i: nat, p: nat :: IsPort(net, i, p) ==> Received(s'.ops[i], s.n, p) == Received(s.ops[i], s.n, p))
  }

  lemma {:induction false} QuietKeeps(net: Net, e: Table, s: Sys, s': Sys)
    requires WellFormed(net) && Sized(net, e) && Quiet(net, s, s')
    requires ChansOk(net, e, s) && LogOk(net, e, s) && PutsOk(net, e, s)
    ensures ChansOk(net, e, s') && LogOk(net, e, s') && PutsOk(net, e, s')
  {
    forall j: nat, p: nat | IsPort(net, j, p) ensures ChanOk(net, e, s', j, p) {
      assert ChanOk(net, e, s, j, p);
    }
  }

  // ---- An op gets flow n -------------------------------------------------------------------

  lemma {:induction false} HandoffCounts(w: World, net: Net, e: Table, s: Sys, i: nat)
    requires Good(net, e, s) && Enabled(net, s, Handoff(i))
    ensures CountsOk(net, Apply(w, net, s, Handoff(i)))
  {
    var s' := Apply(w, net, s, Handoff(i));
    assert BehindFlags(net, s') == BehindFlags(net, s)[i := 0];
    SumUpdate(BehindFlags(net, s), i, 0);
  }

  lemma {:induction false} HandoffOps(w: World, net: Net, e: Table, s: Sys, i: nat)
    requires Good(net, e, s) && Enabled(net, s, Handoff(i))
    ensures OpsOk(net, e, Apply(w, net, s, Handoff(i)))
    ensures Quiet(net, s, Apply(w, net, s, Handoff(i)))
  {
    hide ChanOk, ChansOk, PutsOk, LogOk, ResultsOk, AllCountable, ReadersMatch, OpWired;
    var s' := Apply(w, net, s, Handoff(i));
    forall j: nat | j < |net.ops| ensures OpOk(net, e, s', j) {
      assert OpOk(net, e, s, j);
    }
  }

  // ---- An op has all its inputs ------------------------------------------------------------

  /** The table holds, for every flow, what each op's specification makes of its inputs. */
  ghost predicate Solves(w: World, net: Net, e: Table)
    requires WellFormed(net)
  {
    && Sized(net, e)
    && (forall f: nat, i: nat :: i < |net.ops| ==>
          e(f)[i] == OpSpec(w, f, net.ops[i].kind, Gather(e(f), net.ops[i].ins)))
  }

  /** The op works in flow n and has taken every input. */
  ghost predicate Loaded(net: Net, e: Table, s: Sys, i: nat)
    requires Good(net, e, s)
  {
    && s.busy && i < |net.ops| && Gated(net.ops[i]) && s.ops[i].Work? && s.ops[i].f == s.n
    && (forall p: nat :: p < |net.ops[i].ins| ==> Seen(s.ops[i].arr, p))
  }

  /** The op has sent or put the value the table gives it. */
  ghost function Computed(net: Net, e: Table, s: Sys, i: nat): Sys
    requires Good(net, e, s) && i < |net.ops|
  {
    var v := e(s.n)[i];
    if net.ops[i].kind.Fanout? then
      s.(ops := s.ops[i := Idle(s.n)], puts := s.puts + PutsOf(i, net.ops[i].width, s.n, v))
    else
      s.(ops := s.ops[i := Send(s.n, v)])
  }

  lemma {:induction false} ComputeIs(w: World, net: Net, e: Table, s: Sys, i: nat)
    requires Good(net, e, s) && Solves(w, net, e) && Enabled(net, s, Compute(i))
    ensures Loaded(net, e, s, i)
    ensures Apply(w, net, s, Compute(i)) == Computed(net, e, s, i)
  {
    assert OpOk(net, e, s, i) && OpWired(net.ops, i);
    var vals := Gather(e(s.n), net.ops[i].ins);
    OpConfluent(w, s.n, net.ops[i].kind, s.ops[i].arr, vals);
    forall p: nat | p < |vals| ensures Seen(s.ops[i].arr, p) {
      AllSeen(s.ops[i].arr, vals, p);
    }
  }

  lemma {:induction false} ComputeCounts(net: Net, e: Table, s: Sys, i: nat)
    requires Good(net, e, s) && Loaded(net, e, s, i)
    ensures CountsOk(net, Computed(net, e, s, i))
  {
    hide ChanOk, ChansOk, LogOk, ResultsOk, AllCountable, PutsOk, ReadersMatch, Seen, OpOk;
    assert BehindFlags(net, Computed(net, e, s, i)) == BehindFlags(net, s);
  }

  lemma {:induction false} ComputeOps(net: Net, e: Table, s: Sys, i: nat)
    requires Good(net, e, s) && Loaded(net, e, s, i)
    ensures OpsOk(net, e, Computed(net, e, s, i))
    ensures !net.ops[i].kind.Fanout? ==> Quiet(net, s, Computed(net, e, s, i))
  {
    hide ChanOk, ChansOk, PutsOk, LogOk, CountsOk, ResultsOk, AllCountable, ReadersMatch, OpWired, Seen;
    var s' := Computed(net, e, s, i);
    forall j: nat | j < |net.ops| ensures OpOk(net, e, s', j) {
      assert OpOk(net, e, s, j);
    }
  }

  /** A put waits only for an outlet whose fanout has sent this flow's value. */
  lemma {:induction false} PutWasSent(net: Net, e: Table, s: Sys, x: Put)
    requires Good(net, e, s) && x in s.puts
    ensures x.c in net.readers && s.ops[x.c.src] == Idle(s.n)
  {
    assert x == Due(e, s.n, x.c);
    assert x.c.src < |net.ops| - 1;
    var r := net.readers[x.c];
    assert IsPort(net, r.op, r.port) && ChanOk(net, e, s, r.op, r.port);
  }

  lemma {:induction false} FanoutPuts(net: Net, e: Table, s: Sys, i: nat)
    requires Good(net, e, s) && Loaded(net, e, s, i) && net.ops[i].kind.Fanout?
    ensures PutsOk(net, e, Computed(net, e, s, i))
    ensures forall c :: IsOutlet(net.ops, c) && net.ops[c.src].kind.Fanout? ==>
      (Due(e, s.n, c) in Computed(net, e, s, i).puts <==> Due(e, s.n, c) in s.puts || c.src == i)
  {
    var s' := Computed(net, e, s, i);
    var v, width := e(s.n)[i], net.ops[i].width;
    forall x: Put
      ensures s'.puts[x] == s.puts[x] + if x.c.src == i && x.c.k < width && x.f == s.n && x.v == v then 1 else 0
    {
      PutsOfAt(i, width, s.n, v, x);
    }
    forall x | x in s.puts ensures x.c.src != i {
      PutWasSent(net, e, s, x);
    }
  }

  lemma {:induction false} FanoutChans(net: Net, e: Table, s: Sys, i: nat)
    requires Good(net, e, s) && Loaded(net, e, s, i) && net.ops[i].kind.Fanout?
    ensures ChansOk(net, e, Computed(net, e, s, i))
    ensures LogOk(net, e, Computed(net, e, s, i))
  {
    hide CountsOk, ResultsOk, AllCountable, OpOk, OpsOk, Orderly, Seen, PutsOk, ReadersMatch;
    FanoutPuts(net, e, s, i);
    var s' := Computed(net, e, s, i);
    forall j: nat, p: nat | IsPort(net, j, p)
      ensures Received(s'.ops[j], s.n, p) == Received(s.ops[j], s.n, p)
      ensures ChanOk(net, e, s', j, p)
    {
      assert ChanOk(net, e, s, j, p) && OpWired(net.ops, j);
    }
  }

  // ---- A port takes a value ----------------------------------------------------------------

  /** The port has not taken flow n's value, and the op is there to take it. */
  ghost predicate Hungry(net: Net, e: Table, s: Sys, i: nat, p: nat)
    requires Good(net, e, s)
  {
    && s.busy && IsPort(net, i, p)
    && Listening(net.ops[i], s.ops[i], p) && !Received(s.ops[i], s.n, p)
    && (net.ops[i].kind.Relay? ==> e(s.n)[i] == Arg(e(s.n), net.ops[i].ins[p].src))
  }

  /** The op's state after it took the table's value on the port. */
  ghost function Fed(net: Net, e: Table, s: Sys, i: nat, p: nat): OpState
    requires Good(net, e, s) && Hungry(net, e, s, i, p)
  {
    var v := Arg(e(s.n), net.ops[i].ins[p].src);
    if net.ops[i].kind.Relay? then Send(s.n, v) else Work(s.n, s.ops[i].arr + [Arrival(p, v)])
  }

  /** A relay passes on what it reads. */
  ghost predicate RelaysPass(net: Net, e: Table)
    requires WellFormed(net) && Sized(net, e)
  {
    forall f: nat, i: nat, p: nat :: IsPort(net, i, p) && net.ops[i].kind.Relay? ==>
      e(f)[i] == Arg(e(f), net.ops[i].ins[p].src)
  }

  lemma {:induction false} RelaySolved(w: World, net: Net, e: Table)
    requires WellFormed(net) && Solves(w, net, e)
    ensures RelaysPass(net, e)
  {
    hide ReadersMatch;
    forall f: nat, i: nat, p: nat | IsPort(net, i, p) && net.ops[i].kind.Relay?
      ensures e(f)[i] == Arg(e(f), net.ops[i].ins[p].src)
    {
      assert OpWired(net.ops, i);
      assert e(f)[i] == OpSpec(w, f, net.ops[i].kind, Gather(e(f), net.ops[i].ins));
    }
  }

  lemma {:induction false} SeenSnoc(arr: seq<Arrival>, a: Arrival, q: nat)
    ensures Seen(arr + [a], q) <==> Seen(arr, q) || q == a.port
  {
    SeenLast(arr + [a], q);
    assert (arr + [a])[..|arr|] == arr;
  }

  lemma {:induction false} FedState(net: Net, e: Table, s: Sys, i: nat, p: nat)
    requires Good(net, e, s) && Hungry(net, e, s, i, p)
    ensures forall q: nat :: q < |net.ops[i].ins| ==>
      (Received(Fed(net, e, s, i, p), s.n, q) <==> Received(s.ops[i], s.n, q) || q == p)
    ensures !net.ops[i].kind.Relay? ==>
      Orderly(Fed(net, e, s, i, p).arr, Gather(e(s.n), net.ops[i].ins))
    ensures s.ops[i] != Idle(s.n)
  {
    assert OpOk(net, e, s, i) && OpWired(net.ops, i);
    if !net.ops[i].kind.Relay? {
      var a := Arrival(p, Arg(e(s.n), net.ops[i].ins[p].src));
      forall q: nat ensures Seen(s.ops[i].arr + [a], q) <==> Seen(s.ops[i].arr, q) || q == p {
        SeenSnoc(s.ops[i].arr, a, q);
      }
    }
  }

  /** Exactly the given port took the given value. */
  ghost predicate Moved(net: Net, e: Table, s: Sys, s': Sys, i: nat, p: nat) {
    && Shaped(net, s) && Shaped(net, s') && IsPort(net, i, p)
    && s'.n == s.n && s'.busy == s.busy && 1 <= s.n
    && s'.log == s.log + multiset{Expected(net, e, s.n, i, p)}
    && !Received(s.ops[i], s.n, p)
    && (forall a: nat, q: nat :: IsPort(net, a, q) ==>
          (Received(s'.ops[a], s.n, q) <==> Received(s.ops[a], s.n, q) || (a == i && q == p)))
  }

  lemma {:induction false} MovedLog(net: Net, e: Table, s: Sys, s': Sys, i: nat, p: nat)
    requires WellFormed(net) && Moved(net, e, s, s', i, p) && LogOk(net, e, s)
    ensures LogOk(net, e, s')
  {
    hide ReadersMatch, OpWired;
    var d0 := Expected(net, e, s.n, i, p);
    assert d0 !in s.log;
    forall d | d in s'.log
      ensures IsPort(net, d.op, d.port) && d == Expected(net, e, d.f, d.op, d.port) && s'.log[d] == 1
      ensures 1 <= d.f <= s.n && (d.f == s.n ==> Received(s'.ops[d.op], s.n, d.port))
    {
      assert d in s.log || d == d0;
    }
    forall f: nat, a: nat, q: nat | 1 <= f <= s.n && IsPort(net, a, q) && (f < s.n || Received(s'.ops[a], s.n, q))
      ensures Expected(net, e, f, a, q) in s'.log
    {
      assert Expected(net, e, f, a, q) in s.log || (f == s.n && a == i && q == p);
    }
  }

  // Rendezvous with a sending op.

  ghost function TookSend(net: Net, e: Table, s: Sys, i: nat, p: nat): Sys
    requires Good(net, e, s) && Hungry(net, e, s, i, p)
  {
    s.(ops := s.ops[net.ops[i].ins[p].src := Idle(s.n)][i := Fed(net, e, s, i, p)],
       log := s.log + multiset{Expected(net, e, s.n, i, p)})
  }

  ghost predicate Sending(net: Net, e: Table, s: Sys, j: nat)
    requires Good(net, e, s)
  {
    j < |net.ops| && !net.ops[j].kind.Fanout? && s.ops[j].Send? && s.ops[j].f == s.n
  }

  /** A value of flow n on a port that has not taken one passes every sanity check. */
  lemma {:induction false} NoPanic(net: Net, e: Table, s: Sys, i: nat, p: nat)
    requires Good(net, e, s) && IsPort(net, i, p) && !Received(s.ops[i], s.n, p)
    requires Listening(net.ops[i], s.ops[i], p) && !net.ops[i].kind.Relay?
    ensures s.ops[i].f == s.n && !Panics(net.ops[i], s.ops[i], p, s.n)
  {
    hide LogOk, CountsOk, ResultsOk, PutsOk, ReadersMatch, ChansOk, Overruns, Orderly;
    assert OpOk(net, e, s, i) && Countable(net.ops[i].kind, |net.ops[i].ins|);
    if net.ops[i].kind.Argv? {
      NextFits(|net.ops[i].ins|, s.ops[i].arr, Gather(e(s.n), net.ops[i].ins), p);
    }
  }

  lemma {:induction false} TakeIs(w: World, net: Net, e: Table, s: Sys, i: nat, p: nat)
    requires Good(net, e, s) && RelaysPass(net, e) && Enabled(net, s, Take(i, p))
    ensures Hungry(net, e, s, i, p) && Sending(net, e, s, net.ops[i].ins[p].src)
    ensures Apply(w, net, s, Take(i, p)) == TookSend(net, e, s, i, p)
  {
    hide LogOk, CountsOk, ResultsOk, PutsOk, ReadersMatch, Panics, AllCountable;
    assert OpWired(net.ops, i);
    var j := net.ops[i].ins[p].src;
    assert OpOk(net, e, s, j) && IsPort(net, i, p) && ChanOk(net, e, s, i, p);
    if !net.ops[i].kind.Relay? {
      NoPanic(net, e, s, i, p);
    }
  }

  lemma {:induction false} TookSendMoves(net: Net, e: Table, s: Sys, i: nat, p: nat)
    requires Good(net, e, s) && Hungry(net, e, s, i, p) && Sending(net, e, s, net.ops[i].ins[p].src)
    ensures Moved(net, e, s, TookSend(net, e, s, i, p), i, p)
  {
    var s' := TookSend(net, e, s, i, p);
    FedState(net, e, s, i, p);
    assert OpWired(net.ops, i);
  }

  lemma {:induction false} TookSendOps(net: Net, e: Table, s: Sys, i: nat, p: nat)
    requires Good(net, e, s) && Hungry(net, e, s, i, p) && Sending(net, e, s, net.ops[i].ins[p].src)
    ensures OpsOk(net, e, TookSend(net, e, s, i, p))
  {
    hide LogOk, ResultsOk, CountsOk, ChanOk, ChansOk, PutsOk, AllCountable, ReadersMatch;
    var s' := TookSend(net, e, s, i, p);
    FedState(net, e, s, i, p);
    assert OpWired(net.ops, i);
    forall a: nat | a < |net.ops| ensures OpOk(net, e, s', a) {
      assert OpOk(net, e, s, a);
    }
  }

  lemma {:induction false} TookSendChans(net: Net, e: Table, s: Sys, i: nat, p: nat)
    requires Good(net, e, s) && Hungry(net, e, s, i, p) && Sending(net, e, s, net.ops[i].ins[p].src)
    ensures ChansOk(net, e, TookSend(net, e, s, i, p))
  {
    hide LogOk, ResultsOk, CountsOk, AllCountable, PutsOk, OpOk;
    var s' := TookSend(net, e, s, i, p);
    var c0 := net.ops[i].ins[p];
    TookSendMoves(net, e, s, i, p);
    FedState(net, e, s, i, p);
    assert OpWired(net.ops, i) && OpWired(net.ops, c0.src);
    forall a: nat, q: nat | IsPort(net, a, q) ensures ChanOk(net, e, s', a, q) {
      assert ChanOk(net, e, s, a, q);
      var c := net.ops[a].ins[q];
      assert OpWired(net.ops, a);
      if c.src == c0.src {
        assert c == c0;
        assert net.readers[c] == Reader(a, q) && net.readers[c] == Reader(i, p);
      }
    }
  }

  lemma {:induction false} TookSendCounts(net: Net, e: Table, s: Sys, i: nat, p: nat)
    requires Good(net, e, s) && Hungry(net, e, s, i, p) && Sending(net, e, s, net.ops[i].ins[p].src)
    ensures CountsOk(net, TookSend(net, e, s, i, p))
  {
    hide ChanOk, ChansOk, LogOk, ResultsOk, AllCountable, PutsOk, OpOk, ReadersMatch, Seen;
    var s' := TookSend(net, e, s, i, p);
    assert OpWired(net.ops, i);
    assert BehindFlags(net, s') == BehindFlags(net, s);
  }

  // Rendezvous with a fanout's put.

  ghost function TookPut(net: Net, e: Table, s: Sys, i: nat, p: nat): Sys
    requires Good(net, e, s) && Hungry(net, e, s, i, p)
  {
    s.(ops := s.ops[i := Fed(net, e, s, i, p)],
       puts := s.puts - multiset{Due(e, s.n, net.ops[i].ins[p])},
       log := s.log + multiset{Expected(net, e, s.n, i, p)})
  }

  ghost predicate Putting(net: Net, e: Table, s: Sys, c: Chan)
    requires Good(net, e, s)
  {
    IsOutlet(net.ops, c) && net.ops[c.src].kind.Fanout? && Due(e, s.n, c) in s.puts
  }

  lemma {:induction false} TakePutIs(w: World, net: Net, e: Table, s: Sys, i: nat, p: nat, x: Put)
    requires Good(net, e, s) && RelaysPass(net, e) && Enabled(net, s, TakePut(i, p, x))
    ensures Hungry(net, e, s, i, p) && Putting(net, e, s, net.ops[i].ins[p])
    ensures Apply(w, net, s, TakePut(i, p, x)) == TookPut(net, e, s, i, p)
  {
    hide LogOk, CountsOk, ResultsOk, ReadersMatch, Panics, AllCountable;
    assert OpWired(net.ops, i);
    assert OpOk(net, e, s, i) && IsPort(net, i, p) && ChanOk(net, e, s, i, p);
    assert x == Due(e, s.n, x.c);
    if !net.ops[i].kind.Relay? {
      NoPanic(net, e, s, i, p);
    }
  }

  lemma {:induction false} TookPutMoves(net: Net, e: Table, s: Sys, i: nat, p: nat)
    requires Good(net, e, s) && Hungry(net, e, s, i, p) && Putting(net, e, s, net.ops[i].ins[p])
    ensures Moved(net, e, s, TookPut(net, e, s, i, p), i, p)
  {
    FedState(net, e, s, i, p);
  }

  lemma {:induction false} TookPutOps(net: Net, e: Table, s: Sys, i: nat, p: nat)
    requires Good(net, e, s) && Hungry(net, e, s, i, p) && Putting(net, e, s, net.ops[i].ins[p])
    ensures OpsOk(net, e, TookPut(net, e, s, i, p))
    ensures PutsOk(net, e, TookPut(net, e, s, i, p))
  {
    hide LogOk, ResultsOk, CountsOk, AllCountable, ReadersMatch;
    var s' := TookPut(net, e, s, i, p);
    FedState(net, e, s, i, p);
    assert OpWired(net.ops, i);
    forall a: nat | a < |net.ops| ensures OpOk(net, e, s', a) {
      assert OpOk(net, e, s, a);
    }
  }

  lemma {:induction false} TookPutChans(net: Net, e: Table, s: Sys, i: nat, p: nat)
    requires Good(net, e, s) && Hungry(net, e, s, i, p) && Putting(net, e, s, net.ops[i].ins[p])
    ensures ChansOk(net, e, TookPut(net, e, s, i, p))
  {
    var s' := TookPut(net, e, s, i, p);
    var c0 := net.ops[i].ins[p];
    TookPutMoves(net, e, s, i, p);
    FedState(net, e, s, i, p);
    forall a: nat, q: nat | IsPort(net, a, q) ensures ChanOk(net, e, s', a, q) {
      assert ChanOk(net, e, s, a, q);
      var c := net.ops[a].ins[q];
      assert OpWired(net.ops, a);
      assert s.puts[Due(e, s.n, c0)] == 1;
      if c == c0 {
        assert net.readers[c] == Reader(a, q) && net.readers[c] == Reader(i, p);
      } else {
        assert Due(e, s.n, c) in s'.puts <==> Due(e, s.n, c) in s.puts;
      }
    }
  }

  lemma {:induction false} TookPutCounts(net: Net, e: Table, s: Sys, i: nat, p: nat)
    requires Good(net, e, s) && Hungry(net, e, s, i, p) && Putting(net, e, s, net.ops[i].ins[p])
    ensures CountsOk(net, TookPut(net, e, s, i, p))
  {
    hide ChanOk, ChansOk, LogOk, ResultsOk, AllCountable, PutsOk, OpOk, ReadersMatch, OpWired, Seen;
    assert BehindFlags(net, TookPut(net, e, s, i, p)) == BehindFlags(net, s);
  }

  // ---- The worker receives the flow detail record -------------------------------------------

  /** log_fdr has its record of flow n: then every op is done with flow n and no put is pending. */
  lemma {:induction false} AllDone(net: Net, e: Table, s: Sys, i: nat)
    requires Good(net, e, s) && s.busy && s.ops[|net.ops| - 1].Send? && i < |net.ops| - 1
    ensures s.ops[i] == Idle(s.n)
    decreases |net.ops| - i
  {
    var c := Chan(i, 0);
    assert OpWired(net.ops, i) && IsOutlet(net.ops, c) && c in net.readers;
    var r := net.readers[c];
    assert OpWired(net.ops, r.op) && net.ops[r.op].ins[r.port] == c;
    if r.op < |net.ops| - 1 {
      AllDone(net, e, s, r.op);
    }
    assert IsPort(net, r.op, r.port) && ChanOk(net, e, s, r.op, r.port);
  }

  lemma {:induction false} ReaderDone(net: Net, e: Table, s: Sys, r: Reader)
    requires Good(net, e, s) && s.busy && s.ops[|net.ops| - 1].Send? && IsPort(net, r.op, r.port)
    ensures Received(s.ops[r.op], s.n, r.port)
  {
    if r.op < |net.ops| - 1 {
      AllDone(net, e, s, r.op);
    }
  }

  lemma {:induction false} NoPuts(net: Net, e: Table, s: Sys)
    requires Good(net, e, s) && s.busy && s.ops[|net.ops| - 1].Send?
    ensures s.puts == multiset{}
  {
    if x :| x in s.puts {
      PutWasSent(net, e, s, x);
      var r := net.readers[x.c];
      assert IsPort(net, r.op, r.port) && ChanOk(net, e, s, r.op, r.port);
      ReaderDone(net, e, s, r);
      assert false;
    }
  }

  lemma {:induction false} ResolveCounts(w: World, net: Net, e: Table, s: Sys)
    requires Good(net, e, s) && Enabled(net, s, Resolve)
    ensures CountsOk(net, Apply(w, net, s, Resolve))
  {
    var s' := Apply(w, net, s, Resolve);
    NoPuts(net, e, s);
    assert OpOk(net, e, s, |net.ops| - 1);
    forall i: nat | i < |net.ops| ensures s'.ops[i] == Idle(s.n) {
      if i < |net.ops| - 1 {
        AllDone(net, e, s, i);
      }
    }
    SumZeros(BehindFlags(net, s'));
  }

  lemma {:induction false} ResolveFinds(w: World, net: Net, e: Table, s: Sys)
    requires Good(net, e, s) && Enabled(net, s, Resolve)
    ensures var s' := Apply(w, net, s, Resolve);
      s'.puts == multiset{} && forall i :: 0 <= i < |net.ops| ==> s'.ops[i] == Idle(s.n)
    ensures forall j: nat, p: nat :: IsPort(net, j, p) ==> Received(s.ops[j], s.n, p)
  {
    ResolveCounts(w, net, e, s);
    assert OpOk(net, e, s, |net.ops| - 1);
    forall j: nat, p: nat | IsPort(net, j, p) ensures Received(s.ops[j], s.n, p) {
      ReaderDone(net, e, s, Reader(j, p));
    }
  }

  lemma {:induction false} ResolveChans(w: World, net: Net, e: Table, s: Sys)
    requires Good(net, e, s) && Enabled(net, s, Resolve)
    ensures OpsOk(net, e, Apply(w, net, s, Resolve))
    ensures ChansOk(net, e, Apply(w, net, s, Resolve))
  {
    hide LogOk, CountsOk, ResultsOk, AllCountable, ReadersMatch;
    ResolveFinds(w, net, e, s);
    forall j: nat, p: nat | IsPort(net, j, p) ensures ChanOk(net, e, Apply(w, net, s, Resolve), j, p) {
      assert OpWired(net.ops, j);
    }
  }

  lemma {:induction false} ResolveLog(w: World, net: Net, e: Table, s: Sys)
    requires Good(net, e, s) && Enabled(net, s, Resolve)
    ensures LogOk(net, e, Apply(w, net, s, Resolve))
  {
    hide OpsOk, ChansOk, CountsOk, ResultsOk, AllCountable, ReadersMatch;
    ResolveFinds(w, net, e, s);
  }

  lemma {:induction false} ResolveResults(w: World, net: Net, e: Table, s: Sys)
    requires Good(net, e, s) && Enabled(net, s, Resolve)
    ensures ResultsOk(net, e, Apply(w, net, s, Resolve))
  {
    assert OpOk(net, e, s, |net.ops| - 1);
  }

  // ---- Every step, every schedule -----------------------------------------------------------

  lemma {:induction false} BeginKeeps(w: World, net: Net, e: Table, s: Sys)
    requires Good(net, e, s) && Enabled(net, s, Begin)
    ensures Inv(net, e, Apply(w, net, s, Begin))
  {
    BeginCounts(w, net, e, s);
    BeginChans(w, net, e, s);
    BeginLog(w, net, e, s);
  }

  lemma {:induction false} HandoffKeeps(w: World, net: Net, e: Table, s: Sys, i: nat)
    requires Good(net, e, s) && Enabled(net, s, Handoff(i))
    ensures Inv(net, e, Apply(w, net, s, Handoff(i)))
  {
    HandoffCounts(w, net, e, s, i);
    HandoffOps(w, net, e, s, i);
    QuietKeeps(net, e, s, Apply(w, net, s, Handoff(i)));
  }

  lemma {:induction false} ComputeKeeps(net: Net, e: Table, s: Sys, i: nat)
    requires Good(net, e, s) && Loaded(net, e, s, i)
    ensures Inv(net, e, Computed(net, e, s, i))
  {
    ComputeCounts(net, e, s, i);
    ComputeOps(net, e, s, i);
    if net.ops[i].kind.Fanout? {
      FanoutPuts(net, e, s, i);
      FanoutChans(net, e, s, i);
    } else {
      QuietKeeps(net, e, s, Computed(net, e, s, i));
    }
  }

  lemma {:induction false} TookSendKeeps(net: Net, e: Table, s: Sys, i: nat, p: nat)
    requires Good(net, e, s) && Hungry(net, e, s, i, p) && Sending(net, e, s, net.ops[i].ins[p].src)
    ensures Inv(net, e, TookSend(net, e, s, i, p))
  {
    hide ChanOk, OpOk, LogOk, ReadersMatch, AllCountable, CountsOk, Moved;
    TookSendMoves(net, e, s, i, p);
    MovedLog(net, e, s, TookSend(net, e, s, i, p), i, p);
    TookSendOps(net, e, s, i, p);
    TookSendChans(net, e, s, i, p);
    TookSendCounts(net, e, s, i, p);
    assert OpWired(net.ops, i);
  }

  lemma {:induction false} TookPutKeeps(net: Net, e: Table, s: Sys, i: nat, p: nat)
    requires Good(net, e, s) && Hungry(net, e, s, i, p) && Putting(net, e, s, net.ops[i].ins[p])
    ensures Inv(net, e, TookPut(net, e, s, i, p))
  {
    hide ChanOk, OpOk, LogOk, PutsOk, ReadersMatch, AllCountable, CountsOk, Moved, OpWired;
    TookPutMoves(net, e, s, i, p);
    MovedLog(net, e, s, TookPut(net, e, s, i, p), i, p);
    TookPutOps(net, e, s, i, p);
    TookPutChans(net, e, s, i, p);
    TookPutCounts(net, e, s, i, p);
  }

  lemma {:induction false} ResolveKeeps(w: World, net: Net, e: Table, s: Sys)
    requires Good(net, e, s) && Enabled(net, s, Resolve)
    ensures Inv(net, e, Apply(w, net, s, Resolve))
  {
    ResolveCounts(w, net, e, s);
    ResolveChans(w, net, e, s);
    ResolveLog(w, net, e, s);
    ResolveResults(w, net, e, s);
  }

  lemma {:induction false} StepKeeps(w: World, net: Net, e: Table, s: Sys, step: Step)
    requires Good(net, e, s) && Solves(w, net, e) && Enabled(net, s, step)
    ensures Inv(net, e, Apply(w, net, s, step))
  {
    match step
    case Begin => BeginKeeps(w, net, e, s);
    case Handoff(i) => HandoffKeeps(w, net, e, s, i);
    case Take(i, p) =>
      RelaySolved(w, net, e);
      TakeIs(w, net, e, s, i, p);
      TookSendKeeps(net, e, s, i, p);
    case TakePut(i, p, x) =>
      RelaySolved(w, net, e);
      TakePutIs(w, net, e, s, i, p, x);
      TookPutKeeps(net, e, s, i, p);
    case Compute(i) =>
      ComputeIs(w, net, e, s, i);
      ComputeKeeps(net, e, s, i);
    case Resolve => ResolveKeeps(w, net, e, s);
  }
}
