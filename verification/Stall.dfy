/** What becomes of the flows of a network in which some argv() has more inputs than it can count (flowd/flow.go, flowd/server.go). */
module Stall {
  // An argv with 256 or more inputs takes fewer values in a flow than its inputs offer.  Each input holds at
  // most two values back, one in its relay and one in the op before it, so after a few flows some input is
  // full, and the op before it never asks for another flow.

  import opened Text
  import opened Rummy
  import opened FlowOps
  import opened Network
  import opened Lockstep
  import opened Schedules
  import opened Miscount

  ghost predicate Choked(net: Net, i: nat) {
    WellFormed(net) && LongArgv(net, i) && FedByRelays(net.ops, i)
  }

  /** The relay before a port of op `i`, and the op before that relay. */
  ghost function RelayOf(net: Net, i: nat, p: nat): nat
    requires IsPort(net, i, p)
  {
    net.ops[i].ins[p].src
  }

  ghost function SourceOf(net: Net, i: nat, p: nat): nat
    requires IsPort(net, i, p) && FedByRelays(net.ops, i)
  {
    net.ops[RelayOf(net, i, p)].ins[0].src
  }

  /** The channels of a port's relay and source, and that nothing else reads them. */
  lemma {:induction false} Line(net: Net, i: nat, p: nat)
    requires Choked(net, i) && IsPort(net, i, p)
    ensures var r, j := RelayOf(net, i, p), SourceOf(net, i, p);
      && j < r < i < |net.ops| - 1
      && net.ops[i].ins[p] == Chan(r, 0) && net.ops[r].ins[0] == Chan(j, 0)
      && (forall x: nat, q: nat :: IsPort(net, x, q) && net.ops[x].ins[q].src == r ==> x == i && q == p)
      && (forall x: nat, q: nat :: IsPort(net, x, q) && net.ops[x].ins[q].src == j ==> x == r && q == 0)
  {
    var r, j := RelayOf(net, i, p), SourceOf(net, i, p);
    assert ViaRelay(net.ops, net.ops[i].ins[p].src);
    assert OpWired(net.ops, i) && OpWired(net.ops, r) && OpWired(net.ops, j);
    OnlyReader(net, i, p);
    OnlyReader(net, r, 0);
  }

  lemma {:induction false} OnlyReader(net: Net, i: nat, p: nat)
    requires WellFormed(net) && IsPort(net, i, p) && net.ops[i].ins[p].src < |net.ops|
    requires !net.ops[net.ops[i].ins[p].src].kind.Fanout?
    ensures net.ops[i].ins[p].k == 0
    ensures forall x: nat, q: nat :: IsPort(net, x, q) && net.ops[x].ins[q].src == net.ops[i].ins[p].src ==> x == i && q == p
  {
    var c := net.ops[i].ins[p];
    assert OpWired(net.ops, i) && OpWired(net.ops, c.src);
    forall x: nat, q: nat | IsPort(net, x, q) && net.ops[x].ins[q].src == c.src ensures x == i && q == p {
      assert OpWired(net.ops, x);
      assert net.ops[x].ins[q] == c;
      assert net.readers[c] == Reader(i, p) && net.readers[c] == Reader(x, q);
    }
  }

  // ---- One input -----------------------------------------------------------------------------------

  /** How many values the op has handed over. */
  function Sent(st: OpState): nat {
    if st.Idle? || st.f == 0 then st.f else st.f - 1
  }

  /** Of the values that the source handed over, `c` went on and at most one is in the relay. */
  predicate InLine(relay: OpState, source: OpState, c: nat) {
    c + (if relay.Send? then 1 else 0) == Sent(source) && (source.Idle? || 1 <= source.f)
  }

  ghost predicate PortOk(net: Net, s: Sys, i: nat, p: nat, c: nat)
    requires Shaped(net, s) && IsPort(net, i, p) && Choked(net, i)
  {
    Line(net, i, p);
    InLine(s.ops[RelayOf(net, i, p)], s.ops[SourceOf(net, i, p)], c)
  }

  /** Puts come from fan-outs. */
  ghost predicate PutsFan(net: Net, s: Sys) {
    forall x :: x in s.puts ==> x.c.src < |net.ops| && net.ops[x.c.src].kind.Fanout?
  }

  function Bumped(step: Step, i: nat, p: nat): nat {
    if step == Take(i, p) then 1 else 0
  }

  /** A rendezvous changes the reader and the sender, and no other op. */
  lemma {:induction false} TakeChanges(w: World, net: Net, s: Sys, x: nat, q: nat)
    requires WellFormed(net) && Shaped(net, s) && Enabled(net, s, Take(x, q))
    ensures IsPort(net, x, q)
    ensures var src, s' := net.ops[x].ins[q].src, Apply(w, net, s, Take(x, q));
      && src < x && s.ops[src].Send? && s'.ops[src] == Idle(s.ops[src].f)
      && (if Gated(net.ops[x]) then s.ops[x].Work? && (s'.ops[x].Work? || s'.ops[x].Broken?) && s'.ops[x].f == s.ops[x].f
          else s.ops[x].Idle? && s'.ops[x].Send?)
      && forall k :: 0 <= k < |net.ops| && k != x && k != src ==> s'.ops[k] == s.ops[k]
  {
    hide ReadersMatch, Panics, Arity;
    assert OpWired(net.ops, x);
  }

  lemma {:induction false} TakePutChanges(w: World, net: Net, s: Sys, x: nat, q: nat, y: Put)
    requires WellFormed(net) && Shaped(net, s) && Enabled(net, s, TakePut(x, q, y))
    ensures IsPort(net, x, q) && net.ops[x].ins[q] == y.c && y in s.puts
    ensures var s' := Apply(w, net, s, TakePut(x, q, y));
      && (if Gated(net.ops[x]) then s.ops[x].Work? && (s'.ops[x].Work? || s'.ops[x].Broken?) && s'.ops[x].f == s.ops[x].f
          else s.ops[x].Idle? && s'.ops[x].Send?)
      && forall k :: 0 <= k < |net.ops| && k != x ==> s'.ops[k] == s.ops[k]
  {
    hide ReadersMatch, Panics, Arity;
  }

  lemma {:induction false} PortTake(w: World, net: Net, s: Sys, i: nat, p: nat, c: nat, x: nat, q: nat)
    requires Choked(net, i) && Shaped(net, s) && IsPort(net, i, p) && PortOk(net, s, i, p, c)
    requires Enabled(net, s, Take(x, q))
    ensures PortOk(net, Apply(w, net, s, Take(x, q)), i, p, c + Bumped(Take(x, q), i, p))
  {
    hide WellFormed, Enabled, Apply, LongArgv;
    Line(net, i, p);
    TakeChanges(w, net, s, x, q);
    assert ViaRelay(net.ops, RelayOf(net, i, p));
  }

  lemma {:induction false} PortTakePut(w: World, net: Net, s: Sys, i: nat, p: nat, c: nat, x: nat, q: nat, y: Put)
    requires Choked(net, i) && Shaped(net, s) && IsPort(net, i, p) && PortOk(net, s, i, p, c) && PutsFan(net, s)
    requires Enabled(net, s, TakePut(x, q, y))
    ensures PortOk(net, Apply(w, net, s, TakePut(x, q, y)), i, p, c)
  {
    hide WellFormed, Enabled, Apply, LongArgv;
    Line(net, i, p);
    TakePutChanges(w, net, s, x, q, y);
    assert ViaRelay(net.ops, RelayOf(net, i, p));
  }

  /** Without a rendezvous, relays stay as they are, and no op hands anything over. */
  lemma {:induction false} QuietOp(w: World, net: Net, s: Sys, step: Step, k: nat)
    requires WellFormed(net) && Shaped(net, s) && Enabled(net, s, step) && !step.Take? && !step.TakePut?
    requires k < |net.ops| - 1 && !net.ops[k].kind.Fanout?
    ensures var st, st' := s.ops[k], Apply(w, net, s, step).ops[k];
      && (!Gated(net.ops[k]) ==> st' == st)
      && (st.Idle? || 1 <= st.f ==> Sent(st') == Sent(st) && (st'.Idle? || 1 <= st'.f))
  {
    hide WellFormed, OpResult;
  }

  lemma {:induction false} PortQuiet(w: World, net: Net, s: Sys, i: nat, p: nat, c: nat, step: Step)
    requires Choked(net, i) && Shaped(net, s) && IsPort(net, i, p) && PortOk(net, s, i, p, c)
    requires Enabled(net, s, step) && !step.Take? && !step.TakePut?
    ensures PortOk(net, Apply(w, net, s, step), i, p, c)
  {
    hide WellFormed, Enabled, Apply, LongArgv;
    Line(net, i, p);
    assert ViaRelay(net.ops, RelayOf(net, i, p));
    QuietOp(w, net, s, step, RelayOf(net, i, p));
    QuietOp(w, net, s, step, SourceOf(net, i, p));
  }

  lemma {:induction false} PortKept(w: World, net: Net, s: Sys, i: nat, p: nat, c: nat, step: Step)
    requires Choked(net, i) && Shaped(net, s) && IsPort(net, i, p) && PortOk(net, s, i, p, c) && PutsFan(net, s)
    requires Enabled(net, s, step)
    ensures PortOk(net, Apply(w, net, s, step), i, p, c + Bumped(step, i, p))
  {
    hide Choked, PortOk, PutsFan, Enabled, Apply;
    match step
    case Take(x, q) => PortTake(w, net, s, i, p, c, x, q);
    case TakePut(x, q, y) => PortTakePut(w, net, s, i, p, c, x, q, y);
    case _ => PortQuiet(w, net, s, i, p, c, step);
  }

  // ---- The argv ------------------------------------------------------------------------------------

  /** In `f` flows at most `most` values each were taken. */
  ghost predicate ArgvOk(a: OpState, most: nat, total: nat) {
    match a
    case Idle(f) => total <= most * f
    case Work(f, arr) => 1 <= f && |arr| <= most && total <= most * (f - 1) + |arr|
    case Send(f, _) => 1 <= f && total <= most * f
    case Broken(f) => 1 <= f && total <= most * f
  }

  lemma {:induction false} OneFlowMore(most: nat, f: nat)
    requires 1 <= f
    ensures most * f == most * (f - 1) + most
  {
  }

  function Taking(step: Step, i: nat): nat {
    if step.Take? && step.i == i then 1 else 0
  }

  lemma {:induction false} ArgvTakes(net: Net, s: Sys, i: nat, p: nat, f: nat, v: Val, total: nat)
    requires Choked(net, i) && Shaped(net, s) && Listening(net.ops[i], s.ops[i], p)
    requires ArgvOk(s.ops[i], Low8(|net.ops[i].ins|), total)
    ensures ArgvOk(Receive(net.ops[i], s.ops[i], p, f, v), Low8(|net.ops[i].ins|), total + 1)
  {
    hide WellFormed, FedByRelays, Panics, Low8;
    OneFlowMore(Low8(|net.ops[i].ins|), s.ops[i].f);
  }

  lemma {:induction false} NoPutForArgv(net: Net, s: Sys, i: nat, step: Step)
    requires Choked(net, i) && Shaped(net, s) && PutsFan(net, s) && Enabled(net, s, step) && step.TakePut?
    ensures step.i != i
  {
    hide WellFormed, LongArgv;
    assert forall p :: 0 <= p < |net.ops[i].ins| ==> ViaRelay(net.ops, net.ops[i].ins[p].src);
    assert net.ops[net.ops[step.i].ins[step.p].src].kind.Fanout?;
  }

  lemma {:induction false} ArgvTake(w: World, net: Net, s: Sys, i: nat, total: nat, x: nat, q: nat)
    requires Choked(net, i) && Shaped(net, s) && Enabled(net, s, Take(x, q))
    requires ArgvOk(s.ops[i], Low8(|net.ops[i].ins|), total)
    ensures ArgvOk(Apply(w, net, s, Take(x, q)).ops[i], Low8(|net.ops[i].ins|), total + Taking(Take(x, q), i))
  {
    hide ReadersMatch, FedByRelays, Low8, Receive, Listening, Arity;
    assert OpWired(net.ops, x);
    if x == i {
      var m := s.ops[net.ops[i].ins[q].src];
      ArgvTakes(net, s, i, q, m.f, m.v, total);
    }
  }

  /** Without a rendezvous. */
  lemma {:induction false} ArgvQuiet(w: World, net: Net, s: Sys, i: nat, total: nat, step: Step)
    requires Choked(net, i) && Shaped(net, s) && Enabled(net, s, step) && !step.Take? && !step.TakePut?
    requires ArgvOk(s.ops[i], Low8(|net.ops[i].ins|), total)
    ensures ArgvOk(Apply(w, net, s, step).ops[i], Low8(|net.ops[i].ins|), total)
  {
    hide ReadersMatch, FedByRelays, OpResult, Low8;
    if s.ops[i].Work? {
      OneFlowMore(Low8(|net.ops[i].ins|), s.ops[i].f);
    }
  }

  lemma {:induction false} ArgvKept(w: World, net: Net, s: Sys, i: nat, total: nat, step: Step)
    requires Choked(net, i) && Shaped(net, s) && PutsFan(net, s) && Enabled(net, s, step)
    requires ArgvOk(s.ops[i], Low8(|net.ops[i].ins|), total)
    ensures ArgvOk(Apply(w, net, s, step).ops[i], Low8(|net.ops[i].ins|), total + Taking(step, i))
  {
    if step.Take? {
      ArgvTake(w, net, s, i, total, step.i, step.p);
    } else if step.TakePut? {
      hide ArgvOk, PutsFan, Enabled, Apply;
      NoPutForArgv(net, s, i, step);
      TakePutChanges(w, net, s, step.i, step.p, step.x);
    } else {
      ArgvQuiet(w, net, s, i, total, step);
    }
  }

  // ---- The worker ----------------------------------------------------------------------------------

  /** The ops that ask for flows and are not in flow n. */
  function LagFlags(net: Net, s: Sys): seq<nat>
    requires |s.ops| == |net.ops|
  {
    seq(|net.ops|, x requires 0 <= x < |net.ops| => if Gated(net.ops[x]) && s.busy && s.ops[x].f != s.n then 1 else 0)
  }

  ghost predicate WorkerOk(net: Net, s: Sys)
    requires Shaped(net, s)
  {
    && s.left + s.handed == GatedCount(net.ops) && s.left == Sum(LagFlags(net, s))
    && (forall x :: 0 <= x < |net.ops| && Gated(net.ops[x]) ==> s.ops[x].f <= s.n)
    && |s.results| == if s.busy then s.n - 1 else s.n
  }

  lemma {:induction false} FlowRests(w: World, net: Net, s: Sys, step: Step, x: nat)
    requires WellFormed(net) && Shaped(net, s) && Enabled(net, s, step) && !step.Take? && !step.TakePut?
    requires x < |net.ops| && step != Handoff(x)
    ensures Apply(w, net, s, step).ops[x].f == s.ops[x].f
  {
    hide WellFormed, OpResult;
  }

  /** But for a handoff, an op that asks for flows stays in its flow. */
  lemma {:induction false} FlowStays(w: World, net: Net, s: Sys, step: Step, x: nat)
    requires WellFormed(net) && Shaped(net, s) && Enabled(net, s, step) && x < |net.ops| && Gated(net.ops[x])
    ensures step == Handoff(x) || Apply(w, net, s, step).ops[x].f == s.ops[x].f
  {
    hide WellFormed, Enabled, Apply;
    match step
    case Take(i, p) => TakeChanges(w, net, s, i, p);
    case TakePut(i, p, y) => TakePutChanges(w, net, s, i, p, y);
    case _ =>
      if step != Handoff(x) {
        FlowRests(w, net, s, step, x);
      }
  }

  lemma {:induction false} WorkerBegins(w: World, net: Net, s: Sys)
    requires WellFormed(net) && Shaped(net, s) && WorkerOk(net, s) && !s.busy
    ensures WorkerOk(net, Apply(w, net, s, Begin))
  {
    hide WellFormed;
    SumZeros(LagFlags(net, s));
    assert LagFlags(net, Apply(w, net, s, Begin)) == GatedFlags(net.ops);
  }

  lemma {:induction false} WorkerHands(w: World, net: Net, s: Sys, x: nat)
    requires WellFormed(net) && Shaped(net, s) && WorkerOk(net, s) && Enabled(net, s, Handoff(x))
    ensures WorkerOk(net, Apply(w, net, s, Handoff(x)))
  {
    hide WellFormed;
    assert LagFlags(net, Apply(w, net, s, Handoff(x))) == LagFlags(net, s)[x := 0];
    SumUpdate(LagFlags(net, s), x, 0);
  }

  lemma {:induction false} WorkerKept(w: World, net: Net, s: Sys, step: Step)
    requires WellFormed(net) && Shaped(net, s) && WorkerOk(net, s) && Enabled(net, s, step)
    ensures WorkerOk(net, Apply(w, net, s, step))
  {
    match step
    case Begin => WorkerBegins(w, net, s);
    case Handoff(x) => WorkerHands(w, net, s, x);
    case _ =>
      var s' := Apply(w, net, s, step);
      forall x | 0 <= x < |net.ops| && Gated(net.ops[x]) ensures s'.ops[x].f == s.ops[x].f {
        FlowStays(w, net, s, step, x);
      }
      WorkerRests(net, s, s');
  }

  lemma {:induction false} WorkerRests(net: Net, s: Sys, s': Sys)
    requires Shaped(net, s) && Shaped(net, s') && WorkerOk(net, s)
    requires forall x :: 0 <= x < |net.ops| && Gated(net.ops[x]) ==> s'.ops[x].f == s.ops[x].f
    requires s'.n == s.n && s'.left == s.left && s'.handed == s.handed
    requires (s'.busy == s.busy && s'.results == s.results)
      || (s.busy && !s'.busy && s.left == 0 && |s'.results| == |s.results| + 1)
    ensures WorkerOk(net, s')
  {
    if s'.busy == s.busy {
      assert LagFlags(net, s') == LagFlags(net, s);
    } else {
      SumZeros(LagFlags(net, s'));
    }
  }

  // ---- The whole network ---------------------------------------------------------------------------

  /** `counts` says how many values the argv has taken on each port. */
  ghost predicate Tallied(net: Net, s: Sys, i: nat, counts: seq<nat>) {
    && Choked(net, i) && Shaped(net, s) && PutsFan(net, s) && WorkerOk(net, s)
    && |counts| == |net.ops[i].ins|
    && (forall p :: 0 <= p < |counts| ==> IsPort(net, i, p) && PortOk(net, s, i, p, counts[p]))
    && ArgvOk(s.ops[i], Low8(|net.ops[i].ins|), Sum(counts))
  }

  lemma {:induction false} PutsKept(w: World, net: Net, s: Sys, step: Step)
    requires WellFormed(net) && Shaped(net, s) && PutsFan(net, s) && Enabled(net, s, step)
    ensures PutsFan(net, Apply(w, net, s, step))
  {
    if step.Compute? && net.ops[step.i].kind.Fanout? {
      var st := s.ops[step.i];
      var v := OpResult(w, st.f, net.ops[step.i].kind, st.arr);
      forall x: Put ensures x in PutsOf(step.i, net.ops[step.i].width, st.f, v) ==> x.c.src == step.i {
        PutsOfAt(step.i, net.ops[step.i].width, st.f, v, x);
      }
    }
  }

  function Counted(counts: seq<nat>, step: Step, i: nat): seq<nat> {
    if step.Take? && step.i == i && step.p < |counts| then counts[step.p := counts[step.p] + 1] else counts
  }

  lemma {:induction false} CountedSum(counts: seq<nat>, step: Step, i: nat)
    requires step.Take? && step.i == i ==> step.p < |counts|
    ensures Sum(Counted(counts, step, i)) == Sum(counts) + Taking(step, i)
  {
    if step.Take? && step.i == i {
      SumUpdate(counts, step.p, counts[step.p] + 1);
    }
  }

  lemma {:induction false} TallyKept(w: World, net: Net, s: Sys, i: nat, counts: seq<nat>, step: Step)
    requires Tallied(net, s, i, counts) && Enabled(net, s, step)
    ensures Tallied(net, Apply(w, net, s, step), i, Counted(counts, step, i))
  {
    hide PortOk, PutsFan, WorkerOk, ArgvOk, FedByRelays, LongArgv, Apply;
    PutsKept(w, net, s, step);
    WorkerKept(w, net, s, step);
    CountedSum(counts, step, i);
    ArgvKept(w, net, s, i, Sum(counts), step);
    var counts' := Counted(counts, step, i);
    forall p | 0 <= p < |counts'| ensures IsPort(net, i, p) && PortOk(net, Apply(w, net, s, step), i, p, counts'[p]) {
      PortKept(w, net, s, i, p, counts[p], step);
    }
  }

  lemma {:induction false} TallyStarts(net: Net, i: nat)
    requires Choked(net, i)
    ensures Tallied(net, Start(net, GatedCount(net.ops)), i, seq(|net.ops[i].ins|, _ => 0))
  {
    var s, counts := Start(net, GatedCount(net.ops)), seq(|net.ops[i].ins|, _ => 0);
    SumZeros(counts);
    SumZeros(LagFlags(net, s));
    forall p | 0 <= p < |counts| ensures IsPort(net, i, p) && PortOk(net, s, i, p, counts[p]) {
      assert IsPort(net, i, p);
      Line(net, i, p);
    }
  }

  lemma {:induction false} SumAtLeast(xs: seq<nat>, k: nat)
    requires forall p :: 0 <= p < |xs| ==> k <= xs[p]
    ensures k * |xs| <= Sum(xs)
  {
    if xs != [] {
      SumAtLeast(xs[..|xs| - 1], k);
      assert k * |xs| == k * (|xs| - 1) + k;
    }
  }

  /** In flow 4 some op has not been handed it and never will be. */
  lemma {:induction false} FourthStays(net: Net, s: Sys, i: nat, counts: seq<nat>)
    requires Tallied(net, s, i, counts) && s.busy && s.n == 4
    ensures 0 < s.left
  {
    hide PortOk, WorkerOk, WellFormed, FedByRelays, Low8, Sum;
    if s.left == 0 {
      NoneLags(net, s);
      forall p | 0 <= p < |counts| ensures 2 <= counts[p] {
        assert IsPort(net, i, p) && PortOk(net, s, i, p, counts[p]);
        SourceInFourth(net, s, i, p, counts[p]);
      }
      SumAtLeast(counts, 2);
      TooMany(|counts|, Low8(|net.ops[i].ins|), Sum(counts));
    }
  }

  lemma {:induction false} NoneLags(net: Net, s: Sys)
    requires Shaped(net, s) && WorkerOk(net, s) && s.busy && s.left == 0
    ensures forall x :: 0 <= x < |net.ops| && Gated(net.ops[x]) ==> s.ops[x].f == s.n
  {
    SumZero(LagFlags(net, s));
    assert forall x :: 0 <= x < |net.ops| && Gated(net.ops[x]) ==> LagFlags(net, s)[x] == 0;
  }

  /** A source that was handed flow 4 has handed over three values, two of which went on. */
  lemma {:induction false} SourceInFourth(net: Net, s: Sys, i: nat, p: nat, c: nat)
    requires Choked(net, i) && Shaped(net, s) && IsPort(net, i, p) && PortOk(net, s, i, p, c)
    requires forall x :: 0 <= x < |net.ops| && Gated(net.ops[x]) ==> s.ops[x].f == 4
    ensures 2 <= c
  {
    hide WellFormed, LongArgv;
    Line(net, i, p);
    assert ViaRelay(net.ops, RelayOf(net, i, p));
  }

  /** More than the argv can have taken in four flows. */
  lemma {:induction false} TooMany(ports: nat, most: nat, total: nat)
    requires COUNTER <= ports && most == Low8(ports) && 2 * ports <= total
    ensures most * 4 < total
  {
  }

  ghost predicate Stalls(net: Net, s: Sys, i: nat) {
    s.n <= 4 && (s.n == 4 ==> s.busy) && exists counts :: Tallied(net, s, i, counts)
  }

  lemma {:induction false} StallKept(w: World, net: Net, s: Sys, i: nat, step: Step)
    requires Choked(net, i) && Shaped(net, s) && Stalls(net, s, i) && Enabled(net, s, step)
    ensures Stalls(net, Apply(w, net, s, step), i)
  {
    hide Tallied;
    var counts :| Tallied(net, s, i, counts);
    TallyKept(w, net, s, i, counts, step);
    if s.busy && s.n == 4 {
      FourthStays(net, s, i, counts);
    }
  }

  lemma {:induction false} ScheduleStalls(w: World, net: Net, s: Sys, i: nat, steps: seq<Step>)
    requires Choked(net, i) && Shaped(net, s) && Stalls(net, s, i) && Feasible(w, net, s, steps)
    ensures Stalls(net, After(w, net, s, steps), i)
    decreases |steps|
  {
    hide Stalls;
    if steps != [] {
      StallKept(w, net, s, i, steps[0]);
      ScheduleStalls(w, net, Apply(w, net, s, steps[0]), i, steps[1..]);
    }
  }

  /** Under every schedule such a network reports three flows at most. */
  lemma {:induction false} ThreeFlowsAtMost(w: World, net: Net, s: Sys, i: nat)
    requires Choked(net, i) && Reachable(w, net, s)
    ensures |s.results| <= 3
  {
    var start := Start(net, GatedCount(net.ops));
    TallyStarts(net, i);
    assert Stalls(net, start, i);
    var steps :| Feasible(w, net, start, steps) && After(w, net, start, steps) == s;
    ScheduleStalls(w, net, start, i, steps);
    var counts :| Tallied(net, s, i, counts);
    assert WorkerOk(net, s);
  }
}
