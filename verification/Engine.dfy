/**
  The engine end to end: rules compiled by compile() and run by any schedule give
  every rule of every flow the value its text means.
 */
module Engine {
  import opened Text
  import opened Rummy
  import opened FlowOps
  import opened Network
  import opened Lockstep
  import opened Schedules
  import opened Rules
  import opened Compile
  import opened CompileRules
  import opened Compiler
  import opened Miscount
  import Stall
  import Meaning

  /** The fire op of a rule. */
  ghost function FireOp(c: Compilation, r: Rule): nat
    requires r.name in c.fans && c.fans[r.name].op < |c.ops| && |c.ops[c.fans[r.name].op].ins| == 1
  {
    c.ops[c.fans[r.name].op].ins[0].src
  }

  /**
    When no rule has more than 255 arguments, in every reachable state and for every
    rule of the program: in each flow that has resolved, the rule's call took the argument vector and the when value that
    the recursive evaluation gives, exactly once each, and its fan-out took the
    rule's record exactly once.
   */
  lemma {:induction false} EngineDelivers(w: World, prog: seq<Rule>, c: Compilation, s: Sys, f: nat, k: nat)
    requires DistinctNames(prog) && InOrder(prog) && Correct(c, prog) && ArgsCountable(prog)
    requires Reachable(w, NetOf(c.ops), s)
    requires 1 <= f <= s.n && (f < s.n || !s.busy) && k < |prog|
    ensures prog[k].name in c.fans && c.fans[prog[k].name].op < |c.ops| && |c.ops[c.fans[prog[k].name].op].ins| == 1
    ensures var env := EvalRules(w, f, prog);
      && TimesTaken(s.log, f, FireOp(c, prog[k]), 0, EvalArgs(w, f, env, prog[k].args)) == 1
      && TimesTaken(s.log, f, FireOp(c, prog[k]), 1, EvalExpr(w, f, env, prog[k].when)) == 1
      && TimesTaken(s.log, f, c.fans[prog[k].name].op, 0, Lookup(env, prog[k].name)) == 1
  {
    var net, fan := NetOf(c.ops), c.fans[prog[k].name].op;
    assert RuleWired(c.ops, fan, prog[k], prog[..k]);
    var fire := FireOp(c, prog[k]);
    var vals := EvalAll(w, f, c.ops);
    RuleInProgram(w, f, prog, k);
    EveryScheduleDelivers(w, net, s, f, fire, 0, vals[c.ops[fire].ins[0].src]);
    EveryScheduleDelivers(w, net, s, f, fire, 1, vals[c.ops[fire].ins[1].src]);
    EveryScheduleDelivers(w, net, s, f, fan, 0, vals[fire]);
  }

  /**
    What the fan-out of a rule took, said of the values of its arguments and its when clause: null exactly when
    one of them is, a record exactly when all are there and the clause is true, and then the record of the
    command or query called with the strings, or of an exit with status 0.
   */
  lemma {:induction false} EngineFires(w: World, prog: seq<Rule>, c: Compilation, s: Sys, f: nat, k: nat)
    requires DistinctNames(prog) && InOrder(prog) && Correct(c, prog) && ArgsCountable(prog)
    requires Reachable(w, NetOf(c.ops), s)
    requires 1 <= f <= s.n && (f < s.n || !s.busy) && k < |prog|
    ensures prog[k].name in c.fans && prog[k].name in EvalRules(w, f, prog)
    ensures var env, r := EvalRules(w, f, prog), prog[k];
      var argv := seq(|r.args|, i requires 0 <= i < |r.args| => EvalExpr(w, f, env, r.args[i]));
      && TimesTaken(s.log, f, c.fans[r.name].op, 0, env[r.name]) == 1
      && FiredAsAsked(w, f, r, argv, EvalExpr(w, f, env, r.when), env[r.name])
  {
    hide Correct, FiredAsAsked, TimesTaken;
    EngineDelivers(w, prog, c, s, f, k);
    RecordExactly(w, f, prog, k);
  }

  /** For rules of the types the grammar asks for, what the fan-out took is what the rule means. */
  lemma {:induction false} EngineMeans(w: World, prog: seq<Rule>, c: Compilation, s: Sys, f: nat, k: nat)
    requires DistinctNames(prog) && InOrder(prog) && Correct(c, prog) && ArgsCountable(prog) && Meaning.Typed(prog)
    requires Reachable(w, NetOf(c.ops), s)
    requires 1 <= f <= s.n && (f < s.n || !s.busy) && k < |prog|
    ensures prog[k].name in c.fans
    ensures TimesTaken(s.log, f, c.fans[prog[k].name].op, 0,
                       Meaning.OutcomeVal(Meaning.OutcomeOf(Meaning.FlowOutcomes(w, f, prog), prog[k].name))) == 1
  {
    EngineDelivers(w, prog, c, s, f, k);
    Meaning.ProgramCarried(w, f, prog);
    assert Lookup(EvalRules(w, f, prog), prog[k].name)
        == Meaning.OutcomeVal(Meaning.OutcomeOf(Meaning.FlowOutcomes(w, f, prog), prog[k].name));
  }

  /** A rule with more arguments than argv() can count never gets its argument vector, in any state and flow. */
  lemma {:induction false} EngineMiscounts(w: World, prog: seq<Rule>, c: Compilation, s: Sys, f: nat, k: nat)
    requires DistinctNames(prog) && InOrder(prog) && Correct(c, prog)
    requires Reachable(w, NetOf(c.ops), s)
    requires k < |prog| && COUNTER <= |prog[k].args|
    ensures prog[k].name in c.fans && c.fans[prog[k].name].op < |c.ops| && |c.ops[c.fans[prog[k].name].op].ins| == 1
    ensures TimesTaken(s.log, f, FireOp(c, prog[k]), 0, EvalArgs(w, f, EvalRules(w, f, prog), prog[k].args)) == 0
  {
    var net, fan := NetOf(c.ops), c.fans[prog[k].name].op;
    assert RuleWired(c.ops, fan, prog[k], prog[..k]);
    var fire := FireOp(c, prog[k]);
    var v := EvalArgs(w, f, EvalRules(w, f, prog), prog[k].args);
    assert ArgsMean(c.ops, c.ops[fire].ins[0].src, prog[..k], prog[k].args);
    LongArgvNeverWhole(w, net, s, c.ops[fire].ins[0].src, f, fire, 0, v);
  }

  /** The rule's call took the argument vector that the recursive evaluation gives, exactly once. */
  ghost predicate ArgvDelivered(w: World, prog: seq<Rule>, c: Compilation, s: Sys, f: nat, r: Rule)
    requires r.name in c.fans && c.fans[r.name].op < |c.ops| && |c.ops[c.fans[r.name].op].ins| == 1
  {
    TimesTaken(s.log, f, FireOp(c, r), 0, EvalArgs(w, f, EvalRules(w, f, prog), r.args)) == 1
  }

  /** In a flow that has resolved, every rule got its argument vector if and only if none has more than 255 arguments. */
  lemma {:induction false} EngineDeliversExactly(w: World, prog: seq<Rule>, c: Compilation, s: Sys, f: nat)
    requires DistinctNames(prog) && InOrder(prog) && Correct(c, prog)
    requires Reachable(w, NetOf(c.ops), s)
    requires 1 <= f <= s.n && (f < s.n || !s.busy)
    ensures forall k :: 0 <= k < |prog| ==>
      prog[k].name in c.fans && c.fans[prog[k].name].op < |c.ops| && |c.ops[c.fans[prog[k].name].op].ins| == 1
    ensures (forall k :: 0 <= k < |prog| ==> ArgvDelivered(w, prog, c, s, f, prog[k])) <==>
      forall k :: 0 <= k < |prog| ==> |prog[k].args| <= 255
  {
    forall k | 0 <= k < |prog|
      ensures prog[k].name in c.fans && c.fans[prog[k].name].op < |c.ops| && |c.ops[c.fans[prog[k].name].op].ins| == 1
    {
      assert RuleWired(c.ops, c.fans[prog[k].name].op, prog[k], prog[..k]);
    }
    forall k | 0 <= k < |prog| && COUNTER <= |prog[k].args| ensures !ArgvDelivered(w, prog, c, s, f, prog[k]) {
      EngineMiscounts(w, prog, c, s, f, k);
    }
    if ArgsCountable(prog) {
      forall k | 0 <= k < |prog| ensures ArgvDelivered(w, prog, c, s, f, prog[k]) {
        EngineDelivers(w, prog, c, s, f, k);
      }
    }
  }

  /** The argv op of a rule with several arguments reads each through its relay. */
  lemma {:induction false} LongArgvIsChoked(prog: seq<Rule>, c: Compilation, k: nat) returns (argv: nat)
    requires Correct(c, prog) && k < |prog| && COUNTER <= |prog[k].args|
    ensures Stall.Choked(NetOf(c.ops), argv)
  {
    hide Means, RuleMeans, AllCountable, EvalAll, WellFormed, FedByRelays;
    var fan := c.fans[prog[k].name].op;
    assert RuleWired(c.ops, fan, prog[k], prog[..k]);
    argv := c.ops[FireOp(c, prog[k])].ins[0].src;
    assert ArgsMean(c.ops, argv, prog[..k], prog[k].args);
  }

  /** And then no schedule gets past the third flow. */
  lemma {:induction false} EngineStalls(w: World, prog: seq<Rule>, c: Compilation, s: Sys)
    requires Correct(c, prog) && !ArgsCountable(prog) && Reachable(w, NetOf(c.ops), s)
    ensures |s.results| <= 3
  {
    var k :| 0 <= k < |prog| && COUNTER <= |prog[k].args|;
    var argv := LongArgvIsChoked(prog, c, k);
    Stall.ThreeFlowsAtMost(w, NetOf(c.ops), s, argv);
  }

  /** The compiled engine can report any number of flows if and only if no rule has more than 255 arguments. */
  lemma {:induction false} EngineGoesOnExactly(w: World, prog: seq<Rule>, c: Compilation)
    requires Correct(c, prog)
    ensures (forall k: nat :: CanReport(w, NetOf(c.ops), k)) <==> forall k :: 0 <= k < |prog| ==> |prog[k].args| <= 255
  {
    if ArgsCountable(prog) {
      forall k: nat ensures CanReport(w, NetOf(c.ops), k) {
        var s := AlwaysReports(w, NetOf(c.ops), k);
      }
    } else if CanReport(w, NetOf(c.ops), 4) {
      var s :| Reachable(w, NetOf(c.ops), s) && 4 <= |s.results|;
      EngineStalls(w, prog, c, s);
    }
  }

  /**
    The flow detail records come out in the order of the flows, and count the rules whose record says ok and
    those whose record does not, in eight bits.
   */
  lemma {:induction false} EngineReports(w: World, prog: seq<Rule>, c: Compilation, s: Sys, k: nat)
    requires Correct(c, prog) && ArgsCountable(prog) && Reachable(w, NetOf(c.ops), s)
    ensures |s.results| == if s.busy then s.n - 1 else s.n
    ensures k < |s.results| ==>
      s.results[k] == FdrV(|OkRules(w, k + 1, prog)| % 256, |FaultRules(w, k + 1, prog)| % 256)
  {
    EveryScheduleReports(w, NetOf(c.ops), s, k);
    FdrIs(w, k + 1, prog);
  }

  /** For rules of the types the grammar asks for: the rules that fired and ended well, and those that fired and did not. */
  lemma {:induction false} EngineCounts(w: World, prog: seq<Rule>, c: Compilation, s: Sys, k: nat)
    requires Correct(c, prog) && ArgsCountable(prog) && Meaning.Typed(prog) && Reachable(w, NetOf(c.ops), s)
    requires k < |s.results|
    ensures var ok, fault := Meaning.Enders(w, k + 1, prog, true), Meaning.Enders(w, k + 1, prog, false);
      s.results[k] == FdrV(|ok| % 256, |fault| % 256)
  {
    EngineReports(w, prog, c, s, k);
    FdrIs(w, k + 1, prog);
    Meaning.FdrCounts(w, k + 1, prog);
  }

  /** The state the engine starts in is the one the schedules were proved for. */
  lemma {:induction false} EngineStarts(w: World, prog: seq<Rule>, c: Compilation)
    requires Correct(c, prog)
    ensures Reachable(w, NetOf(c.ops), Start(NetOf(c.ops), c.confluentCount))
  {
    var s := Start(NetOf(c.ops), c.confluentCount);
    assert Feasible(w, NetOf(c.ops), s, []) && After(w, NetOf(c.ops), s, []) == s;
  }
}
