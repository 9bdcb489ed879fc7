/**
  Main results about the flow engine, for every schedule of a well-formed network: which values flow where,
  that flows stay in lockstep, and that every flow resolves (flowd/flow.go, flowd/server.go).
 */
module Schedules {
  import opened Text
  import opened Collections
  import opened Rummy
  import opened FlowOps
  import opened Network
  import opened Lockstep

  /** Each step of the schedule is enabled when its turn comes. */
  ghost predicate Feasible(w: World, net: Net, s: Sys, steps: seq<Step>)
    requires WellFormed(net) && Shaped(net, s)
    decreases |steps|
  {
    steps == [] || (Enabled(net, s, steps[0]) && Feasible(w, net, Apply(w, net, s, steps[0]), steps[1..]))
  }

  ghost function After(w: World, net: Net, s: Sys, steps: seq<Step>): (s': Sys)
    requires WellFormed(net) && Shaped(net, s) && Feasible(w, net, s, steps)
    ensures Shaped(net, s')
    decreases |steps|
  {
    if steps == [] then s else After(w, net, Apply(w, net, s, steps[0]), steps[1..])
  }

  /** The values the recursive evaluation of the network gives each op. */
  ghost function Answers(w: World, net: Net): Table {
    (f: nat) => EvalAll(w, f, net.ops)
  }

  lemma {:induction false} AnswersSolve(w: World, net: Net)
    requires WellFormed(net)
    ensures Solves(w, net, Answers(w, net))
  {
    forall f: nat, i: nat | i < |net.ops|
      ensures Answers(w, net)(f)[i] == OpSpec(w, f, net.ops[i].kind, Gather(Answers(w, net)(f), net.ops[i].ins))
    {
      assert OpWired(net.ops, i);
      EvalAt(w, f, net.ops, i);
    }
  }

  /** The state compile() leaves, provided its count is the number of ops that call get(). */
  lemma {:induction false} StartGood(w: World, net: Net)
    requires WellFormed(net) && AllCountable(net)
    ensures Good(net, Answers(w, net), Start(net, GatedCount(net.ops)))
  {
    var s := Start(net, GatedCount(net.ops));
    SumZeros(BehindFlags(net, s));
  }

  lemma {:induction false} ScheduleKeeps(w: World, net: Net, e: Table, s: Sys, steps: seq<Step>)
    requires Good(net, e, s) && Solves(w, net, e) && Feasible(w, net, s, steps)
    ensures Good(net, e, After(w, net, s, steps))
    decreases |steps|
  {
    if steps != [] {
      StepKeeps(w, net, e, s, steps[0]);
      ScheduleKeeps(w, net, e, Apply(w, net, s, steps[0]), steps[1..]);
    }
  }

  /** A state some schedule leads to. */
  ghost predicate Reachable(w: World, net: Net, s: Sys)
    requires WellFormed(net)
  {
    exists steps ::
      && Feasible(w, net, Start(net, GatedCount(net.ops)), steps)
      && After(w, net, Start(net, GatedCount(net.ops)), steps) == s
  }

  lemma {:induction false} ReachableGood(w: World, net: Net, s: Sys)
    requires WellFormed(net) && AllCountable(net) && Reachable(w, net, s)
    ensures Good(net, Answers(w, net), s)
  {
    StartGood(w, net);
    AnswersSolve(w, net);
    var steps :| Feasible(w, net, Start(net, GatedCount(net.ops)), steps)
              && After(w, net, Start(net, GatedCount(net.ops)), steps) == s;
    ScheduleKeeps(w, net, Answers(w, net), Start(net, GatedCount(net.ops)), steps);
  }

  // ---- What is delivered ---------------------------------------------------------------------

  /** How often a port has taken a value of a flow. */
  function TimesTaken(log: multiset<Taken>, f: nat, i: nat, p: nat, v: Val): nat {
    log[Taken(f, i, p, v)]
  }

  /**
    Under every schedule each port takes, in each resolved flow, the value the
    recursive evaluation gives its sender, exactly once and nothing else; in the
    flow under way at most once.
   */
  lemma {:induction false} EveryScheduleDelivers(w: World, net: Net, s: Sys, f: nat, i: nat, p: nat, v: Val)
    requires WellFormed(net) && AllCountable(net) && Reachable(w, net, s)
    requires IsPort(net, i, p) && 1 <= f <= s.n
    ensures TimesTaken(s.log, f, i, p, v) <= 1
    ensures TimesTaken(s.log, f, i, p, v) == 1 ==> v == EvalAll(w, f, net.ops)[net.ops[i].ins[p].src]
    ensures (f < s.n || !s.busy) && v == EvalAll(w, f, net.ops)[net.ops[i].ins[p].src] ==>
      TimesTaken(s.log, f, i, p, v) == 1
  {
    ReachableGood(w, net, s);
    assert OpWired(net.ops, i);
    var d := Taken(f, i, p, v);
    if d in s.log {
      assert d == Expected(net, Answers(w, net), f, i, p);
    }
    if (f < s.n || !s.busy) && v == EvalAll(w, f, net.ops)[net.ops[i].ins[p].src] {
      assert f < s.n || Received(s.ops[i], s.n, p);
      assert Expected(net, Answers(w, net), f, i, p) in s.log;
    }
  }

  /** The k-th flow detail record is the one the evaluation of flow k + 1 gives log_fdr. */
  lemma {:induction false} EveryScheduleReports(w: World, net: Net, s: Sys, k: nat)
    requires WellFormed(net) && AllCountable(net) && Reachable(w, net, s)
    ensures |s.results| == if s.busy then s.n - 1 else s.n
    ensures k < |s.results| ==> s.results[k] == EvalAll(w, k + 1, net.ops)[|net.ops| - 1]
  {
    ReachableGood(w, net, s);
    if k < |s.results| {
      assert s.results[k] == Answers(w, net)(k + 1)[|net.ops| - 1];
    }
  }

  /**
    The flow under way agrees with the evaluation at every op that has already
    been handed it, even before it resolves: the values taken so far and the
    value being sent.
   */
  lemma {:induction false} ValuesUnderWay(w: World, net: Net, s: Sys, i: nat)
    requires WellFormed(net) && AllCountable(net) && Reachable(w, net, s) && i < |net.ops|
    ensures s.ops[i].Send? ==> s.ops[i].v == EvalAll(w, s.n, net.ops)[i]
    ensures s.ops[i].Work? ==>
      forall k :: 0 <= k < |s.ops[i].arr| ==>
        && s.ops[i].arr[k].port < |net.ops[i].ins|
        && s.ops[i].arr[k].v == Arg(EvalAll(w, s.n, net.ops), net.ops[i].ins[s.ops[i].arr[k].port].src)
  {
    ReachableGood(w, net, s);
    assert OpOk(net, Answers(w, net), s, i);
  }

  // ---- Lockstep --------------------------------------------------------------------------------

  /** The flow an op is in. */
  function FlowOf(st: OpState): nat {
    st.f
  }

  /**
    The sanity panics of wait_bool2, wait_fire, argv and reduce are unreachable, and the
    record the worker receives is of the flow it pushed.  Every op is in flow n, or still
    in flow n - 1 while n is being pushed, and no value of an older flow is left
    in a channel.
   */
  lemma {:induction false} NeverOutOfSync(w: World, net: Net, s: Sys, i: nat)
    requires WellFormed(net) && AllCountable(net) && Reachable(w, net, s) && i < |net.ops|
    ensures !s.ops[i].Broken? && s.synced
    ensures FlowOf(s.ops[i]) == s.n || (s.busy && FlowOf(s.ops[i]) + 1 == s.n && s.ops[i].Idle?)
    ensures s.busy && s.left == 0 && Gated(net.ops[i]) ==> FlowOf(s.ops[i]) == s.n
    ensures s.busy && s.ops[|net.ops| - 1].Send? ==> s.ops[|net.ops| - 1].f == s.n && s.left == 0
    ensures forall x :: x in s.puts ==> x.f == s.n
  {
    var e := Answers(w, net);
    ReachableGood(w, net, s);
    assert OpOk(net, e, s, i) && OpOk(net, e, s, |net.ops| - 1);
    if s.busy && s.left == 0 {
      SumZero(BehindFlags(net, s));
      assert BehindFlags(net, s)[i] == 0;
    }
    if s.busy && s.ops[|net.ops| - 1].Send? {
      forall j: nat | j < |net.ops| ensures BehindFlags(net, s)[j] == 0 {
        if j < |net.ops| - 1 {
          AllDone(net, e, s, j);
        }
      }
      SumZeros(BehindFlags(net, s));
    }
  }

  /**
    When an op is handed flow n, flow n - 1 has resolved, and every op has been
    handed n - 1 and is done with it.
   */
  lemma {:induction false} HandoffAfterAllDone(w: World, net: Net, s: Sys, i: nat, j: nat)
    requires WellFormed(net) && AllCountable(net) && Reachable(w, net, s) && Enabled(net, s, Handoff(i)) && j < |net.ops|
    ensures |s.results| == s.n - 1
    ensures FlowOf(s.ops[j]) >= s.n - 1
    ensures FlowOf(s.ops[j]) == s.n - 1 ==> s.ops[j] == Idle(s.n - 1)
  {
    ReachableGood(w, net, s);
    assert OpOk(net, Answers(w, net), s, j);
  }

  // ---- Every flow resolves ---------------------------------------------------------------------

  /** What an op still has to do in flow n. */
  function Todo(op: Op, st: OpState, n: nat): nat {
    match st
    case Idle(f) => if f == n then 0 else if Gated(op) then |op.ins| + 3 else 2
    case Work(_, arr) => if |arr| <= |op.ins| then |op.ins| - |arr| + 2 else 2
    case Send(_, _) => 1
    case Broken(_) => 0
  }

  function Todos(net: Net, s: Sys): seq<nat>
    requires |s.ops| == |net.ops|
  {
    seq(|net.ops|, i requires 0 <= i < |net.ops| => Todo(net.ops[i], s.ops[i], s.n))
  }

  /** Bounds the number of steps until flow n resolves. */
  function Remaining(net: Net, s: Sys): nat
    requires |s.ops| == |net.ops|
  {
    Sum(Todos(net, s))
  }

  lemma {:induction false} OrderlyFits(arr: seq<Arrival>, vals: seq<Val>)
    requires Orderly(arr, vals)
    ensures |arr| <= |vals|
  {
    PortsSize(arr, vals);
    BelowSize(|vals|);
    SubsetSize(Ports(arr), Below(|vals|));
  }

  lemma {:induction false} FeedLowers(net: Net, e: Table, s: Sys, i: nat, p: nat)
    requires Good(net, e, s) && Hungry(net, e, s, i, p)
    ensures Todo(net.ops[i], Fed(net, e, s, i, p), s.n) < Todo(net.ops[i], s.ops[i], s.n)
  {
    assert OpOk(net, e, s, i);
    FedState(net, e, s, i, p);
    if !net.ops[i].kind.Relay? {
      OrderlyFits(Fed(net, e, s, i, p).arr, Gather(e(s.n), net.ops[i].ins));
    }
  }

  lemma {:induction false} TookSendLowers(net: Net, e: Table, s: Sys, i: nat, p: nat)
    requires Good(net, e, s) && Hungry(net, e, s, i, p) && Sending(net, e, s, net.ops[i].ins[p].src)
    ensures Remaining(net, TookSend(net, e, s, i, p)) < Remaining(net, s)
  {
    var s' := TookSend(net, e, s, i, p);
    var j := net.ops[i].ins[p].src;
    assert OpWired(net.ops, i);
    FeedLowers(net, e, s, i, p);
    var xs := Todos(net, s);
    var t := Todo(net.ops[i], Fed(net, e, s, i, p), s.n);
    assert Todos(net, s') == xs[j := 0][i := t];
    SumUpdate(xs, j, 0);
    SumUpdate(xs[j := 0], i, t);
  }

  lemma {:induction false} TookPutLowers(net: Net, e: Table, s: Sys, i: nat, p: nat)
    requires Good(net, e, s) && Hungry(net, e, s, i, p)
    ensures Remaining(net, TookPut(net, e, s, i, p)) < Remaining(net, s)
  {
    FeedLowers(net, e, s, i, p);
    var t := Todo(net.ops[i], Fed(net, e, s, i, p), s.n);
    assert Todos(net, TookPut(net, e, s, i, p)) == Todos(net, s)[i := t];
    SumUpdate(Todos(net, s), i, t);
  }

  lemma {:induction false} ComputedLowers(net: Net, e: Table, s: Sys, i: nat)
    requires Good(net, e, s) && Loaded(net, e, s, i)
    ensures Remaining(net, Computed(net, e, s, i)) < Remaining(net, s)
  {
    var t := if net.ops[i].kind.Fanout? then 0 else 1;
    assert Todos(net, Computed(net, e, s, i)) == Todos(net, s)[i := t];
    SumUpdate(Todos(net, s), i, t);
  }

  lemma {:induction false} HandoffLowers(w: World, net: Net, e: Table, s: Sys, i: nat)
    requires Good(net, e, s) && Enabled(net, s, Handoff(i))
    ensures Remaining(net, Apply(w, net, s, Handoff(i))) < Remaining(net, s)
  {
    assert Todos(net, Apply(w, net, s, Handoff(i))) == Todos(net, s)[i := |net.ops[i].ins| + 2];
    SumUpdate(Todos(net, s), i, |net.ops[i].ins| + 2);
  }

  lemma {:induction false} ResolveLowers(w: World, net: Net, e: Table, s: Sys)
    requires Good(net, e, s) && Enabled(net, s, Resolve)
    ensures Remaining(net, Apply(w, net, s, Resolve)) < Remaining(net, s)
  {
    assert OpOk(net, e, s, |net.ops| - 1);
    assert Todos(net, Apply(w, net, s, Resolve)) == Todos(net, s)[|net.ops| - 1 := 0];
    SumUpdate(Todos(net, s), |net.ops| - 1, 0);
  }

  /** Within a flow every step, whichever the scheduler picks, leaves less to do. */
  lemma {:induction false} StepLowers(w: World, net: Net, e: Table, s: Sys, step: Step)
    requires Good(net, e, s) && Solves(w, net, e) && Enabled(net, s, step) && s.busy
    ensures Remaining(net, Apply(w, net, s, step)) < Remaining(net, s)
  {
    match step
    case Handoff(i) => HandoffLowers(w, net, e, s, i);
    case Take(i, p) =>
      RelaySolved(w, net, e);
      TakeIs(w, net, e, s, i, p);
      TookSendLowers(net, e, s, i, p);
    case TakePut(i, p, x) =>
      RelaySolved(w, net, e);
      TakePutIs(w, net, e, s, i, p, x);
      TookPutLowers(net, e, s, i, p);
    case Compute(i) =>
      ComputeIs(w, net, e, s, i);
      ComputedLowers(net, e, s, i);
    case Resolve => ResolveLowers(w, net, e, s);
  }

  /** An op that has not been pushed yet can be. */
  lemma {:induction false} PushEnabled(net: Net, e: Table, s: Sys) returns (step: Step)
    requires Good(net, e, s) && s.busy && 0 < s.left
    ensures Enabled(net, s, step)
  {
    SumPositive(BehindFlags(net, s));
    var i :| 0 <= i < |net.ops| && 0 < BehindFlags(net, s)[i];
    assert OpOk(net, e, s, i);
    step := Handoff(i);
  }

  /** The port of a reader that has not taken flow n's value is listened to. */
  lemma {:induction false} WaitingListens(net: Net, e: Table, s: Sys, i: nat, p: nat)
    requires Good(net, e, s) && s.busy && s.left == 0 && IsPort(net, i, p) && !Received(s.ops[i], s.n, p)
    ensures Listening(net.ops[i], s.ops[i], p)
  {
    assert OpOk(net, e, s, i);
    SumZero(BehindFlags(net, s));
    assert BehindFlags(net, s)[i] == 0;
    if !net.ops[i].kind.Relay? {
      var vals := Gather(e(s.n), net.ops[i].ins);
      OrderlyFits(s.ops[i].arr, vals);
      if |s.ops[i].arr| == |vals| {
        AllSeen(s.ops[i].arr, vals, p);
      }
    }
  }

  /** The first op that is not done with flow n can move, or the one it sends to can. */
  lemma {:induction false} FirstEnabled(net: Net, e: Table, s: Sys, i: nat) returns (step: Step)
    requires Good(net, e, s) && s.busy && s.left == 0
    requires i < |net.ops| && s.ops[i] != Idle(s.n) && forall j :: 0 <= j < i ==> s.ops[j] == Idle(s.n)
    ensures Enabled(net, s, step)
  {
    assert OpOk(net, e, s, i) && OpWired(net.ops, i);
    if s.ops[i].Send? {
      if i == |net.ops| - 1 {
        step := Resolve;
      } else {
        var c := Chan(i, 0);
        assert IsOutlet(net.ops, c) && c in net.readers;
        var r := net.readers[c];
        assert IsPort(net, r.op, r.port) && ChanOk(net, e, s, r.op, r.port);
        WaitingListens(net, e, s, r.op, r.port);
        step := Take(r.op, r.port);
      }
    } else if s.ops[i].Work? && |s.ops[i].arr| == |net.ops[i].ins| {
      step := Compute(i);
    } else {
      var p: nat := MissingPort(net, e, s, i);
      assert IsPort(net, i, p) && ChanOk(net, e, s, i, p);
      WaitingListens(net, e, s, i, p);
      step := TakePut(i, p, Due(e, s.n, net.ops[i].ins[p]));
    }
  }

  /** An op that still listens lacks some input. */
  lemma {:induction false} MissingPort(net: Net, e: Table, s: Sys, i: nat) returns (p: nat)
    requires Good(net, e, s) && s.busy && s.left == 0 && i < |net.ops|
    requires s.ops[i] != Idle(s.n) && !s.ops[i].Send? && !(s.ops[i].Work? && |s.ops[i].arr| == |net.ops[i].ins|)
    ensures p < |net.ops[i].ins| && !Received(s.ops[i], s.n, p)
  {
    assert OpOk(net, e, s, i) && OpWired(net.ops, i);
    SumZero(BehindFlags(net, s));
    assert BehindFlags(net, s)[i] == 0;
    if s.ops[i].Idle? {
      p := 0;
    } else {
      var arr, vals := s.ops[i].arr, Gather(e(s.n), net.ops[i].ins);
      OrderlyFits(arr, vals);
      PortsSize(arr, vals);
      BelowSize(|vals|);
      assert Ports(arr) != Below(|vals|);
      assert exists q: nat :: q in Below(|vals|) && q !in Ports(arr) by {
        if forall q: nat :: q in Below(|vals|) ==> q in Ports(arr) {
          SubsetSize(Below(|vals|), Ports(arr));
        }
      }
      p :| p in Below(|vals|) && p !in Ports(arr);
    }
  }

  /** In every reachable state with a flow under way some step is enabled: no deadlock. */
  lemma {:induction false} NeverStuck(w: World, net: Net, s: Sys) returns (step: Step)
    requires WellFormed(net) && AllCountable(net) && Reachable(w, net, s)
    ensures Enabled(net, s, step)
  {
    hide OpOk, ChanOk, OpsOk, ChansOk, PutsOk, CountsOk, LogOk, ResultsOk, ReadersMatch, AllCountable, OpWired;
    var e := Answers(w, net);
    ReachableGood(w, net, s);
    if !s.busy {
      step := Begin;
    } else if 0 < s.left {
      step := PushEnabled(net, e, s);
    } else {
      var i: nat := 0;
      while i < |net.ops| && s.ops[i] == Idle(s.n)
        invariant 0 <= i <= |net.ops|
        invariant forall j :: 0 <= j < i ==> s.ops[j] == Idle(s.n)
      {
        i := i + 1;
      }
      step := FirstEnabled(net, e, s, i);
    }
  }

  /**
    While commands and queries return, every flow resolves: whatever the scheduler
    does, it cannot take more than `Remaining` steps without resolving the flow,
    and by NeverStuck it can always take one.
   */
  lemma {:induction false} EveryFlowResolves(w: World, net: Net, s: Sys, steps: seq<Step>)
    requires WellFormed(net) && AllCountable(net) && Reachable(w, net, s) && s.busy && Feasible(w, net, s, steps)
    requires Remaining(net, s) < |steps|
    ensures Resolve in steps
  {
    var e := Answers(w, net);
    ReachableGood(w, net, s);
    AnswersSolve(w, net);
    var good := (t: Sys) => Good(net, e, t);
    forall t, step | good(t) && Busy(w, net, t, step) && step != Resolve
      ensures var u := Apply(w, net, t, step); good(u) && u.busy && Remaining(net, u) < Remaining(net, t)
    {
      BusyStep(w, net, e, t, step);
    }
    StepsBounded(w, net, good, s, steps);
  }

  ghost predicate Busy(w: World, net: Net, s: Sys, step: Step)
    requires WellFormed(net)
  {
    Shaped(net, s) && s.busy && Enabled(net, s, step)
  }

  lemma {:induction false} BusyStep(w: World, net: Net, e: Table, s: Sys, step: Step)
    requires Good(net, e, s) && Solves(w, net, e) && s.busy && Enabled(net, s, step) && step != Resolve
    ensures Good(net, e, Apply(w, net, s, step)) && Apply(w, net, s, step).busy
    ensures Remaining(net, Apply(w, net, s, step)) < Remaining(net, s)
  {
    StepLowers(w, net, e, s, step);
    StepKeeps(w, net, e, s, step);
  }

  /** If every step but Resolve keeps a property and lowers Remaining, a run without Resolve is short. */
  lemma {:induction false} StepsBounded(w: World, net: Net, good: Sys -> bool, s: Sys, steps: seq<Step>)
    requires WellFormed(net) && good(s) && s.busy && Shaped(net, s) && Feasible(w, net, s, steps)
    requires forall t, step :: good(t) && Busy(w, net, t, step) && step != Resolve ==>
      var u := Apply(w, net, t, step); good(u) && u.busy && Remaining(net, u) < Remaining(net, t)
    ensures Resolve !in steps ==> |steps| <= Remaining(net, s)
    decreases |steps|
  {
    if steps != [] && steps[0] != Resolve {
      var step, rest := steps[0], steps[1..];
      assert Busy(w, net, s, step);
      var u := Apply(w, net, s, step);
      assert good(u) && u.busy && Remaining(net, u) < Remaining(net, s);
      StepsBounded(w, net, good, u, rest);
      assert Resolve in rest ==> Resolve in steps;
    }
  }

  // ---- The engine goes on --------------------------------------------------------------------------

  lemma {:induction false} FeasibleSnoc(w: World, net: Net, s: Sys, steps: seq<Step>, step: Step)
    requires WellFormed(net) && Shaped(net, s) && Feasible(w, net, s, steps)
    requires Enabled(net, After(w, net, s, steps), step)
    ensures Feasible(w, net, s, steps + [step])
    ensures After(w, net, s, steps + [step]) == Apply(w, net, After(w, net, s, steps), step)
    decreases |steps|
  {
    hide WellFormed, Enabled, Apply;
    var more := steps + [step];
    if steps != [] {
      assert more[0] == steps[0] && more[1..] == steps[1..] + [step];
      FeasibleSnoc(w, net, Apply(w, net, s, steps[0]), steps[1..], step);
    } else {
      assert more[1..] == [];
    }
  }

  lemma {:induction false} ReachableNext(w: World, net: Net, s: Sys, step: Step)
    requires WellFormed(net) && Shaped(net, s) && Reachable(w, net, s) && Enabled(net, s, step)
    ensures Reachable(w, net, Apply(w, net, s, step))
  {
    hide WellFormed, Enabled, Apply, Feasible, After;
    var start := Start(net, GatedCount(net.ops));
    var steps :| Feasible(w, net, start, steps) && After(w, net, start, steps) == s;
    FeasibleSnoc(w, net, start, steps, step);
    var more := steps + [step];
    assert Feasible(w, net, start, more) && After(w, net, start, more) == Apply(w, net, s, step);
  }

  /** Some schedule leads to a state with that many reports. */
  ghost predicate CanReport(w: World, net: Net, k: nat)
    requires WellFormed(net)
  {
    exists s :: Reachable(w, net, s) && k <= |s.results|
  }

  lemma {:induction false} NextReport(w: World, net: Net, s: Sys) returns (t: Sys)
    requires WellFormed(net) && AllCountable(net) && Shaped(net, s) && Reachable(w, net, s)
    ensures Shaped(net, t) && Reachable(w, net, t) && |t.results| == |s.results| + 1
    decreases !s.busy, if s.busy && Shaped(net, s) then Remaining(net, s) else 0
  {
    hide WellFormed, Reachable, Good, Remaining;
    ReachableGood(w, net, s);
    AnswersSolve(w, net);
    var step := Begin;
    if s.busy {
      step := NeverStuck(w, net, s);
    }
    ReachableNext(w, net, s, step);
    t := Apply(w, net, s, step);
    if s.busy && step != Resolve {
      BusyStep(w, net, Answers(w, net), s, step);
      t := NextReport(w, net, t);
    } else if !s.busy {
      t := NextReport(w, net, t);
    }
  }

  /** With argvs that can count their inputs, the engine can report any number of flows. */
  lemma {:induction false} AlwaysReports(w: World, net: Net, k: nat) returns (s: Sys)
    requires WellFormed(net) && AllCountable(net)
    ensures Shaped(net, s) && Reachable(w, net, s) && |s.results| == k
    ensures CanReport(w, net, k)
  {
    if k == 0 {
      s := Start(net, GatedCount(net.ops));
      assert Feasible(w, net, s, []) && After(w, net, s, []) == s;
    } else {
      s := AlwaysReports(w, net, k - 1);
      s := NextReport(w, net, s);
    }
  }
}
