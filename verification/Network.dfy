/**
  The compiled network of goroutines and unbuffered channels, and every way it can be scheduled
  (flowd/flow.go, flowd/server.go).
 */
module Network {
  // A channel is named by the op that writes it and the number of the outlet. All ops have one outlet
  // except a fanout. A relay is a goroutine that only passes values on and never asks for a flow; every
  // other op asks the flow worker for each flow with get().

  import opened Text
  import opened Rummy
  import opened FlowOps

  datatype Chan = Chan(src: nat, k: nat)

  datatype Op = Op(kind: Kind, ins: seq<Chan>, width: nat)

  /** The op and the port that reads a channel. */
  datatype Reader = Reader(op: nat, port: nat)

  datatype Net = Net(ops: seq<Op>, readers: map<Chan, Reader>)

  predicate Gated(op: Op) {
    !op.kind.Relay?
  }

  /** How many ops call get(); the flow worker counts them in confluent_count. */
  function GatedFlags(ops: seq<Op>): seq<nat> {
    seq(|ops|, i requires 0 <= i < |ops| => if Gated(ops[i]) then 1 else 0)
  }

  function Sum(xs: seq<nat>): nat {
    if xs == [] then 0 else Sum(xs[..|xs| - 1]) + xs[|xs| - 1]
  }

  function GatedCount(ops: seq<Op>): nat {
    Sum(GatedFlags(ops))
  }

  ghost predicate IsOutlet(ops: seq<Op>, c: Chan) {
    c.src < |ops| && c.k < ops[c.src].width
  }

  /** Ports of an op lead back to outlets of earlier ops. */
  ghost predicate OpWired(ops: seq<Op>, i: nat)
    requires i < |ops|
  {
    && Arity(ops[i].kind, |ops[i].ins|)
    && 1 <= ops[i].width
    && (!ops[i].kind.Fanout? ==> ops[i].width == 1)
    && (forall p :: 0 <= p < |ops[i].ins| ==> ops[i].ins[p].src < i && IsOutlet(ops, ops[i].ins[p]))
  }

  /** Every port reads its own channel and the reader map says so, both ways. */
  ghost predicate ReadersMatch(ops: seq<Op>, readers: map<Chan, Reader>) {
    && (forall i, p :: 0 <= i < |ops| && 0 <= p < |ops[i].ins| ==>
          ops[i].ins[p] in readers && readers[ops[i].ins[p]] == Reader(i, p))
    && (forall c :: c in readers ==>
          && IsOutlet(ops, c)
          && readers[c].op < |ops| && readers[c].port < |ops[readers[c].op].ins|
          && ops[readers[c].op].ins[readers[c].port] == c)
  }

  /**
    What compile() produces: a list of ops in dependency order in which each
    outlet feeds exactly one port, but for the last op, log_fdr, which feeds the
    flow worker.
   */
  ghost predicate WellFormed(net: Net) {
    && 0 < |net.ops|
    && (forall i :: 0 <= i < |net.ops| ==> OpWired(net.ops, i))
    && ReadersMatch(net.ops, net.readers)
    && (forall c :: IsOutlet(net.ops, c) && c.src < |net.ops| - 1 ==> c in net.readers)
    && net.ops[|net.ops| - 1].kind == Un(Log)
  }

  /** No argv goroutine has more inputs than it can count. */
  ghost predicate AllCountable(net: Net) {
    forall i :: 0 <= i < |net.ops| ==> Countable(net.ops[i].kind, |net.ops[i].ins|)
  }

  /** A relay that reads an op that asks for flows. */
  ghost predicate ViaRelay(ops: seq<Op>, r: nat) {
    && r < |ops| && ops[r].kind.Relay? && |ops[r].ins| == 1
    && ops[r].ins[0].src < |ops| && Gated(ops[ops[r].ins[0].src]) && !ops[ops[r].ins[0].src].kind.Fanout?
  }

  ghost predicate FedByRelays(ops: seq<Op>, i: nat) {
    i < |ops| && forall p :: 0 <= p < |ops[i].ins| ==> ViaRelay(ops, ops[i].ins[p].src)
  }

  // ---- The values a flow should produce -------------------------------------------------

  function Gather(vals: seq<Val>, ins: seq<Chan>): seq<Val> {
    seq(|ins|, p requires 0 <= p < |ins| => Arg(vals, ins[p].src))
  }

  /** The value of every op in flow `n`, in the order the ops were compiled. */
  function EvalAll(w: World, n: nat, ops: seq<Op>): (vals: seq<Val>)
    ensures |vals| == |ops|
  {
    if ops == [] then []
    else
      var before := EvalAll(w, n, ops[..|ops| - 1]);
      var op := ops[|ops| - 1];
      before + [OpSpec(w, n, op.kind, Gather(before, op.ins))]
  }

  /** Ops compiled later never change the value of an op. */
  lemma {:induction false} EvalPrefix(w: World, n: nat, ops: seq<Op>, m: nat)
    requires m <= |ops|
    ensures EvalAll(w, n, ops)[..m] == EvalAll(w, n, ops[..m])
  {
    if m == |ops| {
      assert ops[..m] == ops;
    } else {
      var rest := ops[..|ops| - 1];
      EvalPrefix(w, n, rest, m);
      assert rest[..m] == ops[..m];
      assert EvalAll(w, n, ops)[..|ops| - 1] == EvalAll(w, n, rest);
    }
  }

  /** Each op's value is its specification applied to the values it is wired to. */
  lemma {:induction false} EvalAt(w: World, n: nat, ops: seq<Op>, i: nat)
    requires i < |ops| && OpWired(ops, i)
    ensures EvalAll(w, n, ops)[i] == OpSpec(w, n, ops[i].kind, Gather(EvalAll(w, n, ops), ops[i].ins))
  {
    var upto := ops[..i + 1];
    EvalPrefix(w, n, ops, i + 1);
    EvalPrefix(w, n, ops, i);
    assert upto[..i] == ops[..i] && upto[i] == ops[i];
    var vals, before := EvalAll(w, n, ops), EvalAll(w, n, ops[..i]);
    assert Gather(vals, ops[i].ins) == Gather(before, ops[i].ins) by {
      forall p | 0 <= p < |ops[i].ins|
        ensures Arg(vals, ops[i].ins[p].src) == Arg(before, ops[i].ins[p].src)
      {
        assert before[ops[i].ins[p].src] == vals[..i][ops[i].ins[p].src];
      }
    }
    assert vals[i] == vals[..i + 1][i];
  }

  // ---- States and steps ------------------------------------------------------------------

  datatype OpState =
    | Idle(f: nat)                       // done with flow f, asking for the next
    | Work(f: nat, arr: seq<Arrival>)    // in flow f, with the inputs taken so far
    | Send(f: nat, v: Val)               // blocked sending its value of flow f
    | Broken(f: nat)                     // panicked in flow f on one of its sanity checks

  /** A goroutine started by a fanout to put one value on one outlet. */
  datatype Put = Put(c: Chan, f: nat, v: Val)

  /** Log of what each port took: flow, op, port and value. */
  datatype Taken = Taken(f: nat, op: nat, port: nat, v: Val)

  /**
    The network and the flow worker.  While `busy`, flow `n` is being pushed: the
    worker still has `left` requests to answer for flow n - 1 and has answered
    `handed`.  `results` holds the flow detail records received so far.
   */
  datatype Sys = Sys(ops: seq<OpState>, puts: multiset<Put>, n: nat, busy: bool, left: nat, handed: nat,
                     results: seq<Val>, synced: bool, log: multiset<Taken>)

  /** compile() leaves its count in flow 0, which is resolved at once. */
  function Start(net: Net, confluentCount: nat): Sys {
    Sys(seq(|net.ops|, _ => Idle(0)), multiset{}, 0, false, 0, confluentCount, [], true, multiset{})
  }

  datatype Step =
    | Begin                                  // the worker reads another record
    | Handoff(i: nat)                        // an op gets flow n
    | Take(i: nat, p: nat)                   // rendezvous with a sending op
    | TakePut(i: nat, p: nat, x: Put)        // rendezvous with a fanout's put
    | Compute(i: nat)                        // all inputs taken
    | Resolve                                // the worker receives the fdr

  /** Is the op waiting to receive on the port? */
  predicate Listening(op: Op, st: OpState, p: nat) {
    if op.kind.Relay? then st.Idle?
    else
      && st.Work?
      && |st.arr| < Wanted(op.kind, |op.ins|)
      && (op.kind.Bool2? && Answered(op.kind.op, st.arr) ==> !Seen(st.arr, p))
  }

  /** The sanity checks: a value of another flow, or of this flow once more, or a string with no place in argv. */
  predicate Panics(op: Op, st: OpState, p: nat, f: nat)
    requires st.Work?
  {
    match op.kind
    case Bool2(_) => Seen(st.arr, p)
    case Argv(_) => Overruns(|op.ins|, st.arr, p)
    case Fire(_, _) => f != st.f || Seen(st.arr, p)
    case Reduce => f != st.f || Seen(st.arr, p)
    case _ => false
  }

  function Receive(op: Op, st: OpState, p: nat, f: nat, v: Val): OpState
    requires Listening(op, st, p)
  {
    if op.kind.Relay? then Send(f, v)
    else if Panics(op, st, p, f) then Broken(st.f)
    else Work(st.f, st.arr + [Arrival(p, v)])
  }

  ghost predicate Shaped(net: Net, s: Sys) {
    |s.ops| == |net.ops| && 0 < |net.ops|
  }

  ghost predicate Enabled(net: Net, s: Sys, step: Step)
    requires WellFormed(net) && Shaped(net, s)
  {
    match step
    case Begin => !s.busy
    case Handoff(i) =>
      s.busy && 0 < s.left && i < |net.ops| && Gated(net.ops[i]) && s.ops[i].Idle? && s.ops[i].f + 1 == s.n
    case Take(i, p) =>
      && i < |net.ops| && p < |net.ops[i].ins|
      && var j := net.ops[i].ins[p].src;
      && !net.ops[j].kind.Fanout? && s.ops[j].Send? && Listening(net.ops[i], s.ops[i], p)
    case TakePut(i, p, x) =>
      && i < |net.ops| && p < |net.ops[i].ins|
      && x in s.puts && x.c == net.ops[i].ins[p] && Listening(net.ops[i], s.ops[i], p)
    case Compute(i) =>
      i < |net.ops| && Gated(net.ops[i]) && s.ops[i].Work?
      && |s.ops[i].arr| == Wanted(net.ops[i].kind, |net.ops[i].ins|)
    case Resolve =>
      s.busy && s.left == 0 && s.ops[|net.ops| - 1].Send?
  }

  /** One put goroutine for each outlet of a fanout. */
  function PutsOf(i: nat, width: nat, f: nat, v: Val): multiset<Put> {
    if width == 0 then multiset{} else PutsOf(i, width - 1, f, v) + multiset{Put(Chan(i, width - 1), f, v)}
  }

  ghost function Apply(w: World, net: Net, s: Sys, step: Step): (s': Sys)
    requires WellFormed(net) && Shaped(net, s) && Enabled(net, s, step)
    ensures Shaped(net, s')
  {
    match step
    case Begin =>
      s.(n := s.n + 1, busy := true, left := s.handed, handed := 0)
    case Handoff(i) =>
      s.(ops := s.ops[i := Work(s.n, [])], left := s.left - 1, handed := s.handed + 1)
    case Take(i, p) =>
      var j := net.ops[i].ins[p].src;
      var m := s.ops[j];
      s.(ops := s.ops[j := Idle(m.f)][i := Receive(net.ops[i], s.ops[i], p, m.f, m.v)],
         log := s.log + multiset{Taken(m.f, i, p, m.v)})
    case TakePut(i, p, x) =>
      s.(ops := s.ops[i := Receive(net.ops[i], s.ops[i], p, x.f, x.v)],
         puts := s.puts - multiset{x},
         log := s.log + multiset{Taken(x.f, i, p, x.v)})
    case Compute(i) =>
      var st := s.ops[i];
      var v := OpResult(w, st.f, net.ops[i].kind, st.arr);
      if net.ops[i].kind.Fanout? then
        s.(ops := s.ops[i := Idle(st.f)], puts := s.puts + PutsOf(i, net.ops[i].width, st.f, v))
      else
        s.(ops := s.ops[i := Send(st.f, v)])
    case Resolve =>
      var m := s.ops[|net.ops| - 1];
      s.(ops := s.ops[|net.ops| - 1 := Idle(m.f)], busy := false, results := s.results + [m.v],
         synced := s.synced && m.f == s.n)
  }

  // ---- What every step keeps -------------------------------------------------------------

  /** The port has taken its value of flow n. */
  predicate Received(st: OpState, n: nat, p: nat) {
    match st
    case Idle(f) => f == n
    case Work(f, arr) => Seen(arr, p)
    case Send(_, _) => true
    case Broken(_) => false
  }

  /** A table of the value of every op in every flow. */
  type Table = nat -> seq<Val>

  ghost predicate Sized(net: Net, e: Table) {
    forall f: nat :: |e(f)| == |net.ops|
  }

  ghost predicate OpOk(net: Net, e: Table, s: Sys, i: nat)
    requires WellFormed(net) && Shaped(net, s) && Sized(net, e) && i < |net.ops|
  {
    match s.ops[i]
    case Idle(f) => f == s.n || (s.busy && f + 1 == s.n)
    case Work(f, arr) => s.busy && f == s.n && Gated(net.ops[i]) && Orderly(arr, Gather(e(s.n), net.ops[i].ins))
    case Send(f, v) => s.busy && f == s.n && v == e(s.n)[i] && !net.ops[i].kind.Fanout?
    case Broken(_) => false
  }

  function Due(e: Table, n: nat, c: Chan): Put {
    Put(c, n, Arg(e(n), c.src))
  }

  /** A value is where its sender and its reader think it is. */
  ghost predicate ChanOk(net: Net, e: Table, s: Sys, i: nat, p: nat)
    requires WellFormed(net) && Shaped(net, s) && Sized(net, e) && i < |net.ops| && p < |net.ops[i].ins|
  {
    var c := net.ops[i].ins[p];
    var sent := s.ops[c.src] == Idle(s.n);
    if net.ops[c.src].kind.Fanout? then
      && (sent <==> Received(s.ops[i], s.n, p) || Due(e, s.n, c) in s.puts)
      && !(Received(s.ops[i], s.n, p) && Due(e, s.n, c) in s.puts)
    else
      Received(s.ops[i], s.n, p) <==> sent
  }

  ghost predicate PutsOk(net: Net, e: Table, s: Sys) {
    forall x :: x in s.puts ==>
      x == Due(e, s.n, x.c) && s.puts[x] == 1 && IsOutlet(net.ops, x.c) && net.ops[x.c.src].kind.Fanout?
  }

  /** Ops the worker has still to push from flow n - 1 to flow n. */
  function BehindFlags(net: Net, s: Sys): seq<nat>
    requires |s.ops| == |net.ops|
  {
    seq(|net.ops|, i requires 0 <= i < |net.ops| =>
      if Gated(net.ops[i]) && s.busy && s.ops[i].Idle? && s.ops[i].f != s.n then 1 else 0)
  }

  ghost predicate CountsOk(net: Net, s: Sys)
    requires Shaped(net, s)
  {
    && s.left == Sum(BehindFlags(net, s))
    && s.left + s.handed == GatedCount(net.ops)
    && |s.results| == (if s.busy then s.n - 1 else s.n)
    && (!s.busy ==> s.puts == multiset{} && forall i :: 0 <= i < |net.ops| ==> s.ops[i] == Idle(s.n))
  }

  ghost predicate IsPort(net: Net, i: nat, p: nat) {
    i < |net.ops| && p < |net.ops[i].ins|
  }

  function Expected(net: Net, e: Table, f: nat, i: nat, p: nat): Taken
    requires i < |net.ops| && p < |net.ops[i].ins|
  {
    Taken(f, i, p, Arg(e(f), net.ops[i].ins[p].src))
  }

  /** Each port has taken each resolved flow's value exactly once, and flow n's at most once. */
  ghost predicate LogOk(net: Net, e: Table, s: Sys)
    requires Shaped(net, s)
  {
    && (forall d :: d in s.log ==>
          && IsPort(net, d.op, d.port) && d == Expected(net, e, d.f, d.op, d.port) && s.log[d] == 1
          && 1 <= d.f <= s.n && (d.f == s.n ==> Received(s.ops[d.op], s.n, d.port)))
    && (forall f: nat, i: nat, p: nat :: 1 <= f <= s.n && IsPort(net, i, p) && (f < s.n || Received(s.ops[i], s.n, p)) ==>
          Expected(net, e, f, i, p) in s.log)
  }

  ghost predicate ResultsOk(net: Net, e: Table, s: Sys)
    requires Sized(net, e) && 0 < |net.ops|
  {
    s.synced && forall k :: 0 <= k < |s.results| ==> s.results[k] == e(k + 1)[|net.ops| - 1]
  }

  ghost predicate OpsOk(net: Net, e: Table, s: Sys)
    requires WellFormed(net) && Shaped(net, s) && Sized(net, e)
  {
    forall i: nat :: i < |net.ops| ==> OpOk(net, e, s, i)
  }

  ghost predicate ChansOk(net: Net, e: Table, s: Sys)
    requires WellFormed(net) && Shaped(net, s) && Sized(net, e)
  {
    forall i: nat, p: nat :: IsPort(net, i, p) ==> ChanOk(net, e, s, i, p)
  }

  ghost predicate Inv(net: Net, e: Table, s: Sys)
    requires WellFormed(net) && Sized(net, e)
  {
    && Shaped(net, s)
    && (s.busy ==> 1 <= s.n && s.ops[|net.ops| - 1] != Idle(s.n))
    && OpsOk(net, e, s)
    && ChansOk(net, e, s)
    && PutsOk(net, e, s)
    && CountsOk(net, s)
    && LogOk(net, e, s)
    && ResultsOk(net, e, s)
  }
}
