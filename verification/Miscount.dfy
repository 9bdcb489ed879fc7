/** What becomes of an argument vector with more elements than argv() can count (flowd/flow.go). */
module Miscount {
  import opened Text
  import opened Rummy
  import opened FlowOps
  import opened Network
  import opened Lockstep
  import opened Schedules

  ghost predicate LongArgv(net: Net, i: nat) {
    i < |net.ops| && net.ops[i].kind.Argv? && COUNTER <= |net.ops[i].ins|
  }

  /** A vector with fewer elements than the op has inputs. */
  ghost predicate Cut(net: Net, i: nat, v: Val)
    requires i < |net.ops|
  {
    v.ArgvV? && |v.argv| < |net.ops[i].ins|
  }

  /** All that op `i` sends, and all that was ever taken from it, is cut. */
  ghost predicate AllCut(net: Net, s: Sys, i: nat)
    requires Shaped(net, s) && i < |net.ops|
  {
    && (s.ops[i].Send? ==> Cut(net, i, s.ops[i].v))
    && (forall x :: x in s.puts ==> x.c.src != i)
    && LogCut(net, s.log, i)
  }

  ghost predicate LogCut(net: Net, log: multiset<Taken>, i: nat)
    requires i < |net.ops|
  {
    forall d :: d in log && IsPort(net, d.op, d.port) && net.ops[d.op].ins[d.port].src == i ==> Cut(net, i, d.v)
  }

  lemma {:induction false} LogCutMore(net: Net, log: multiset<Taken>, i: nat, more: Taken)
    requires i < |net.ops| && LogCut(net, log, i)
    requires IsPort(net, more.op, more.port) && net.ops[more.op].ins[more.port].src == i ==> Cut(net, i, more.v)
    ensures LogCut(net, log + multiset{more}, i)
  {
  }

  lemma {:induction false} ComputeCuts(w: World, net: Net, s: Sys, i: nat, j: nat)
    requires WellFormed(net) && Shaped(net, s) && LongArgv(net, i) && AllCut(net, s, i)
    requires Enabled(net, s, Compute(j))
    ensures AllCut(net, Apply(w, net, s, Compute(j)), i)
  {
    hide LogCut, ReadersMatch;
    assert OpWired(net.ops, i);
    var s', st := Apply(w, net, s, Compute(j)), s.ops[j];
    var v := OpResult(w, st.f, net.ops[j].kind, st.arr);
    if net.ops[j].kind.Fanout? {
      forall x: Put ensures x in s'.puts ==> x.c.src != i {
        PutsOfAt(j, net.ops[j].width, st.f, v, x);
      }
    }
  }

  /** A relay or a reader of the op takes what the op sends; anything else it takes is not from the op. */
  lemma {:induction false} TakeCuts(w: World, net: Net, s: Sys, i: nat, step: Step)
    requires WellFormed(net) && Shaped(net, s) && LongArgv(net, i) && AllCut(net, s, i)
    requires (step.Take? || step.TakePut?) && Enabled(net, s, step)
    ensures AllCut(net, Apply(w, net, s, step), i)
  {
    hide ReadersMatch, Cut, Arity, LogCut;
    assert OpWired(net.ops, step.i);
    var m := s.ops[net.ops[step.i].ins[step.p].src];
    var d := if step.Take? then Taken(m.f, step.i, step.p, m.v) else Taken(step.x.f, step.i, step.p, step.x.v);
    LogCutMore(net, s.log, i, d);
  }

  lemma {:induction false} StepCuts(w: World, net: Net, s: Sys, i: nat, step: Step)
    requires WellFormed(net) && Shaped(net, s) && LongArgv(net, i) && AllCut(net, s, i) && Enabled(net, s, step)
    ensures AllCut(net, Apply(w, net, s, step), i)
  {
    hide Cut, LogCut;
    if step.Compute? {
      ComputeCuts(w, net, s, i, step.i);
    } else if step.Take? || step.TakePut? {
      TakeCuts(w, net, s, i, step);
    }
  }

  lemma {:induction false} ScheduleCuts(w: World, net: Net, s: Sys, i: nat, steps: seq<Step>)
    requires WellFormed(net) && Shaped(net, s) && LongArgv(net, i) && AllCut(net, s, i)
    requires Feasible(w, net, s, steps)
    ensures AllCut(net, After(w, net, s, steps), i)
    decreases |steps|
  {
    if steps != [] {
      StepCuts(w, net, s, i, steps[0]);
      ScheduleCuts(w, net, Apply(w, net, s, steps[0]), i, steps[1..]);
    }
  }

  /** Under no schedule does a reader of the op ever take a vector with all its elements. */
  lemma {:induction false} LongArgvNeverWhole(w: World, net: Net, s: Sys, i: nat, f: nat, j: nat, p: nat, v: Val)
    requires WellFormed(net) && Reachable(w, net, s) && LongArgv(net, i)
    requires IsPort(net, j, p) && net.ops[j].ins[p].src == i && v.ArgvV? && |v.argv| == |net.ops[i].ins|
    ensures TimesTaken(s.log, f, j, p, v) == 0
  {
    var start := Start(net, GatedCount(net.ops));
    var steps :| Feasible(w, net, start, steps) && After(w, net, start, steps) == s;
    ScheduleCuts(w, net, start, i, steps);
    assert LogCut(net, s.log, i) && !Cut(net, i, v);
    assert Taken(f, j, p, v) !in s.log;
  }
}
