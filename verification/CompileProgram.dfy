/**
  compile() on one rule (flowd/compile.go).

  The argument vector comes first, then the when clause, then the fire op that reads
  both, then the fan-out with one outlet more than there are references to the rule.
  After each part it is known which outlets still wait for a reader and what the ops
  behind them compute, so that after the fan-out only its own outlets wait.  The rules
  compiled before keep their meaning, and have given away one outlet for each
  reference in this rule.
 */
module CompileProgram {
  import opened Text
  import opened Rummy
  import opened FlowOps
  import opened Network
  import opened Rules
  import opened Compile
  import opened CompileRules

  // ---- One rule ---------------------------------------------------------------------------------------

  ghost predicate FitsRule(code: Code, r: Rule) {
    forall name :: name in code.fans ==>
      && code.fans[name].op < |code.ops|
      && code.fans[name].next + RuleRefs(r, name) <= code.ops[code.fans[name].op].width
  }

  ghost predicate RuleResolvable(fans: map<string, Fan>, r: Rule) {
    forall name :: 0 < RuleRefs(r, name) ==> name in fans
  }

  /** The same fan-outs, with an outlet gone for each reference in the rule. */
  ghost predicate RuleBumped(fans: map<string, Fan>, later: map<string, Fan>, r: Rule) {
    SameFans(fans, later) && forall name :: name in fans ==> later[name].next == fans[name].next + RuleRefs(r, name)
  }

  function EmitFan(code: Code, i: nat, width: nat, name: string): Code {
    Emit(code, Fanout, [Chan(i, 0)], width, 1).(fans := code.fans[name := Fan(|code.ops|, 1)])
  }

  lemma {:induction false} FanSlots(ops: seq<Op>, fans: map<string, Fan>, op: Op, name: string)
    requires Wired(ops) && SlotsOk(ops, fans) && name !in fans && op.kind.Fanout?
    requires |op.ins| == 1 && op.ins[0].src < |ops| && !ops[op.ins[0].src].kind.Fanout?
    ensures SlotsOk(ops + [op], fans[name := Fan(|ops|, 1)])
  {
    var fans' := fans[name := Fan(|ops|, 1)];
    ReadSnoc(ops, op);
    forall m | m in fans' ensures SlotOk(ops + [op], fans'[m]) {
      if m == name {
        forall k: nat ensures !Read(ops, Chan(|ops|, k)) {
          if Read(ops, Chan(|ops|, k)) {
            ReadIsOutlet(ops, Chan(|ops|, k));
          }
        }
      } else {
        assert SlotOk(ops, fans[m]);
      }
    }
  }

  lemma {:induction false} FanSound(code: Code, i: nat, width: nat, name: string)
    requires Sound(code, {i}) && name !in code.fans && 1 <= width
    ensures Sound(EmitFan(code, i, width, name), {})
  {
    var op := Op(Fanout, [Chan(i, 0)], width);
    OpensJoin(code.ops, Fanout, op.ins, width, {i});
    WiredSnoc(code.ops, op);
    FanSlots(code.ops, code.fans, op, name);
    DanglingSnoc(code.ops, op, {i});
    assert {i} - Sources(op.ins) + {} == {} by {
      assert op.ins[0] in op.ins;
    }
    GatedSnoc(code.ops, op);
  }

  lemma {:induction false} FireSound(code: Code, r: Rule, i: nat, j: nat)
    requires Sound(code, {i} + {j}) && i != j
    ensures Sound(Emit(code, Fire(r.name, r.builtin), [Chan(i, 0), Chan(j, 0)], 1, 1), {|code.ops|})
  {
    var ins := [Chan(i, 0), Chan(j, 0)];
    assert {i} + {j} - Sources(ins) == {} by {
      assert ins[0] in ins && ins[1] in ins;
    }
    AllRead(code, Fire(r.name, r.builtin), ins, {i} + {j});
  }

  lemma {:induction false} WhenFits(code: Code, b: Code, r: Rule)
    requires FitsRule(code, r) && Prefix(code.ops, b.ops) && ArgsBumped(code.fans, b.fans, r.args)
    ensures Fits(b, r.when)
    ensures Resolvable(b.fans, r.when) <==> Resolvable(code.fans, r.when)
  {
    forall name | name in b.fans
      ensures b.fans[name].op < |b.ops|
      ensures b.fans[name].next + Refs(r.when, name) <= b.ops[b.fans[name].op].width
    {
      assert RuleRefs(r, name) == ArgRefs(r.args, name) + Refs(r.when, name);
      assert b.ops[b.fans[name].op] == b.ops[..|code.ops|][code.fans[name].op];
    }
  }

  lemma {:induction false} ArgsFit(code: Code, r: Rule)
    requires FitsRule(code, r)
    ensures FitsArgs(code, r.args)
    ensures RuleResolvable(code.fans, r) <==> ArgsResolvable(code.fans, r.args) && Resolvable(code.fans, r.when)
  {
    assert forall name :: RuleRefs(r, name) == ArgRefs(r.args, name) + Refs(r.when, name);
  }

  lemma {:induction false} BumpedBoth(fans: map<string, Fan>, b: map<string, Fan>, c: map<string, Fan>, r: Rule)
    requires ArgsBumped(fans, b, r.args) && Bumped(b, c, r.when)
    ensures RuleBumped(fans, c, r)
  {
    assert forall name :: RuleRefs(r, name) == ArgRefs(r.args, name) + Refs(r.when, name);
  }

  /** The argv op `a` and the when op `b` are ready and alone wait for a reader. */
  ghost predicate Prepared(code: Code, later: Code, r: Rule, a: nat, b: nat, done: seq<Rule>) {
    && Prefix(code.ops, later.ops) && |code.ops| <= a < b < |later.ops|
    && Sound(later, {a} + {b})
    && RuleBumped(code.fans, later.fans, r)
    && FansMean(later.ops, later.fans, done)
    && ArgsMean(later.ops, a, done, r.args) && Means(later.ops, b, done, r.when)
  }

  /** No new fan-out, and one new argv op, which counts right when the arguments fit. */
  ghost predicate Grown(ops: seq<Op>, later: seq<Op>, args: seq<Expr>) {
    FanOps(later) == FanOps(ops) && (ShortArgvs(later) <==> ShortArgvs(ops) && |args| < COUNTER)
  }

  /** After the argument vector: one waiting outlet. */
  ghost predicate ArgvDone(code: Code, later: Code, args: seq<Expr>, done: seq<Rule>) {
    && |code.ops| < |later.ops| && Prefix(code.ops, later.ops)
    && Sound(later, {|later.ops| - 1})
    && ArgsBumped(code.fans, later.fans, args)
    && FansMean(later.ops, later.fans, done)
    && ArgsMean(later.ops, |later.ops| - 1, done, args)
  }

  lemma {:induction false} ArgvCompiled(code: Code, a: Code, args: seq<Expr>, outs: seq<nat>, done: seq<Rule>)
    requires ArgsCompiled(code, a, args, outs, {}, done) && FansMean(a.ops, a.fans, done)
    requires 1 < |args| ==> AllViaRelays(a.ops, outs)
    ensures ArgvDone(code, Emit(a, ArgvKind(|outs|), Channels(outs), 1, 1), args, done)
  {
    hide Sound, FansMean, FanMeans, ArgsMean, ArgsBumped, Means, FedByRelays, AllViaRelays;
    var b := Emit(a, ArgvKind(|outs|), Channels(outs), 1, 1);
    ArgvSound(a, outs);
    ArgvMeans(a.ops, |code.ops|, outs, args, done);
    FansMeanLater(a.ops, b.ops, a.fans, b.fans, done);
    PrefixOf(code.ops, a.ops, b.ops);
  }

  method CompileArgv(code: Code, args: seq<Expr>, ghost done: seq<Rule>) returns (ok: bool, later: Code)
    requires Sound(code, {}) && FitsArgs(code, args) && FansMean(code.ops, code.fans, done)
    ensures ok <==> ArgsResolvable(code.fans, args)
    ensures ok ==> ArgvDone(code, later, args, done) && Grown(code.ops, later.ops, args)
  {
    hide Sound, ArgvDone, FansMean, FitsArgs, ArgsResolvable, FanOps, ShortArgvs, ArgsBumped, Means, Prefix;
    var outs;
    ok, later, outs := CompileArgs(code, args, done);
    if ok {
      ArgvCompiled(code, later, args, outs, done);
      FanOpsSnoc(later.ops, Op(ArgvKind(|outs|), Channels(outs), 1));
      later := Emit(later, ArgvKind(|outs|), Channels(outs), 1, 1);
    }
  }

  lemma {:induction false} WhenCompiled(code: Code, b: Code, c: Code, r: Rule, i: nat, j: nat, done: seq<Rule>)
    requires ArgvDone(code, b, r.args, done) && Compiled(b, c, r.when, {i}, done)
    requires |b.ops| == i + 1 && |c.ops| == j + 1
    ensures Prepared(code, c, r, i, j, done)
  {
    hide Sound, FansMean, ArgsMean, Means, RuleBumped, Prefix;
    assert |b.ops| - 1 == i && |c.ops| - 1 == j;
    PrefixOf(code.ops, b.ops, c.ops);
    BumpedBoth(code.fans, b.fans, c.fans, r);
    FansMeanLater(b.ops, c.ops, b.fans, c.fans, done);
    ArgsMeanLater(b.ops, c.ops, i, done, r.args);
    AssembleRule(code, c, r, i, j, done);
  }

  lemma {:induction false} AssembleRule(code: Code, later: Code, r: Rule, a: nat, b: nat, done: seq<Rule>)
    requires Prefix(code.ops, later.ops) && |code.ops| <= a < b < |later.ops|
    requires Sound(later, {a} + {b}) && RuleBumped(code.fans, later.fans, r) && FansMean(later.ops, later.fans, done)
    requires ArgsMean(later.ops, a, done, r.args) && Means(later.ops, b, done, r.when)
    ensures Prepared(code, later, r, a, b, done)
  {
  }

  /** The WHEN node after the argument vector. */
  method CompileWhen(code: Code, argv: Code, r: Rule, ghost done: seq<Rule>) returns (ok: bool, later: Code, a: nat, b: nat)
    requires FitsRule(code, r) && ArgvDone(code, argv, r.args, done)
    ensures ok <==> Resolvable(code.fans, r.when)
    ensures ok ==> Prepared(code, later, r, a, b, done) && Alike(argv.ops, later.ops)
  {
    WhenFits(code, argv, r);
    a, b := |argv.ops| - 1, 0;
    ok, later := CompileExpr(argv, r.when, {a}, done);
    if ok {
      b := |later.ops| - 1;
      WhenCompiled(code, argv, later, r, a, b, done);
    }
  }

  method CompileOperands(code: Code, r: Rule, ghost done: seq<Rule>) returns (ok: bool, later: Code, a: nat, b: nat)
    requires Sound(code, {}) && FitsRule(code, r) && FansMean(code.ops, code.fans, done)
    ensures ok <==> RuleResolvable(code.fans, r)
    ensures ok ==> Prepared(code, later, r, a, b, done) && Grown(code.ops, later.ops, r.args)
  {
    ArgsFit(code, r);
    var argv;
    ok, argv := CompileArgv(code, r.args, done);
    if !ok {
      return false, argv, 0, 0;
    }
    ok, later, a, b := CompileWhen(code, argv, r, done);
  }

  /** The rule's fan-out is the last op and has given nothing away yet. */
  ghost predicate RuleDone(code: Code, later: Code, r: Rule, width: nat) {
    && |code.ops| < |later.ops| && Prefix(code.ops, later.ops)
    && Sound(later, {})
    && later.ops[|later.ops| - 1].width == width
    && later.fans.Keys == code.fans.Keys + {r.name}
    && later.fans[r.name] == Fan(|later.ops| - 1, 1)
    && (forall name :: name in code.fans ==>
          later.fans[name] == Fan(code.fans[name].op, code.fans[name].next + RuleRefs(r, name)))
  }

  function FireAndFan(code: Code, r: Rule, a: nat, b: nat, width: nat): Code {
    EmitFan(Emit(code, Fire(r.name, r.builtin), [Chan(a, 0), Chan(b, 0)], 1, 1), |code.ops|, width, r.name)
  }

  lemma {:induction false} FireAndFanSound(now: Code, r: Rule, a: nat, b: nat, width: nat)
    requires Sound(now, {a} + {b}) && a != b && r.name !in now.fans && 1 <= width
    ensures Sound(FireAndFan(now, r, a, b, width), {})
  {
    FireSound(now, r, a, b);
    FanSound(Emit(now, Fire(r.name, r.builtin), [Chan(a, 0), Chan(b, 0)], 1, 1), |now.ops|, width, r.name);
  }

  lemma {:induction false} FireAndFanDone(code: Code, now: Code, r: Rule, a: nat, b: nat, width: nat)
    requires Prefix(code.ops, now.ops) && RuleBumped(code.fans, now.fans, r) && r.name !in code.fans
    requires Sound(FireAndFan(now, r, a, b, width), {})
    ensures RuleDone(code, FireAndFan(now, r, a, b, width), r, width)
  {
    PrefixOf(code.ops, now.ops, FireAndFan(now, r, a, b, width).ops);
  }

  lemma {:induction false} FireAndFanOps(now: Code, r: Rule, a: nat, b: nat, width: nat)
    ensures var later := FireAndFan(now, r, a, b, width).ops;
      FanOps(later) == FanOps(now.ops) + {|later| - 1} && (ShortArgvs(later) <==> ShortArgvs(now.ops))
  {
    var fire := Op(Fire(r.name, r.builtin), [Chan(a, 0), Chan(b, 0)], 1);
    FanOpsSnoc(now.ops, fire);
    FanOpsSnoc(now.ops + [fire], Op(Fanout, [Chan(|now.ops|, 0)], width));
  }

  lemma {:induction false} FireAndFanWired(now: Code, r: Rule, a: nat, b: nat, width: nat, done: seq<Rule>)
    requires ArgsMean(now.ops, a, done, r.args) && Means(now.ops, b, done, r.when)
    ensures var later := FireAndFan(now, r, a, b, width);
      && RuleWired(later.ops, |later.ops| - 1, r, done)
      && FanMeans(later.ops, |later.ops| - 1, done + [r], r.name)
  {
    var fire := Emit(now, Fire(r.name, r.builtin), [Chan(a, 0), Chan(b, 0)], 1, 1);
    var later := FireAndFan(now, r, a, b, width);
    FireMeans(now.ops, a, b, r, done);
    FanoutMeans(fire.ops, |now.ops|, width, r, done);
    ArgsMeanLater(now.ops, later.ops, a, done, r.args);
    MeansLater(now.ops, later.ops, b, done, r.when);
    forall w: World, n: nat
      ensures EvalAll(w, n, later.ops)[|now.ops|] == EvalRule(w, n, EvalRules(w, n, done), r)
    {
      SameValue(w, n, fire.ops, later.ops, |now.ops|);
    }
  }

  lemma {:induction false} FansMeanMore(code: Code, now: Code, later: Code, r: Rule, done: seq<Rule>)
    requires FansMean(now.ops, now.fans, done) && Prefix(now.ops, later.ops) && r.name !in now.fans
    requires 0 < |later.ops| && later.fans == now.fans[r.name := Fan(|later.ops| - 1, 1)]
    requires FanMeans(later.ops, |later.ops| - 1, done + [r], r.name)
    ensures FansMean(later.ops, later.fans, done + [r])
  {
    forall name ensures name in later.fans <==> Named(done + [r], name) {
      NamedSnoc(done, r, name);
    }
    forall name | name in later.fans ensures FanMeans(later.ops, later.fans[name].op, done + [r], name) {
      if name != r.name {
        FanMeansLater(now.ops, later.ops, now.fans[name].op, done, name);
        FanMeansMore(later.ops, now.fans[name].op, done, name, r);
      }
    }
  }

  lemma {:induction false} AllWiredMore(code: Code, later: Code, r: Rule, width: nat, done: seq<Rule>)
    requires AllWired(code.ops, code.fans, done) && RuleDone(code, later, r, width)
    requires RuleWired(later.ops, |later.ops| - 1, r, done)
    ensures AllWired(later.ops, later.fans, done + [r])
  {
    hide RuleWired, Sound, Prefix;
    var more := done + [r];
    forall k | 0 <= k < |more|
      ensures more[k].name in later.fans && RuleWired(later.ops, later.fans[more[k].name].op, more[k], more[..k])
    {
      if k < |done| {
        assert more[..k] == done[..k];
        RuleWiredLater(code.ops, later.ops, code.fans[done[k].name].op, done[k], done[..k]);
      } else {
        assert more[..k] == done;
      }
    }
  }

  /** The rule's fan-out is the only new one, and no argv op miscounts unless the rule has too many arguments. */
  ghost predicate GrownByRule(ops: seq<Op>, later: seq<Op>, r: Rule) {
    && FanOps(later) == FanOps(ops) + {|later| - 1}
    && (ShortArgvs(later) <==> ShortArgvs(ops) && |r.args| < COUNTER)
  }

  ghost predicate Finished(code: Code, later: Code, r: Rule, width: nat, done: seq<Rule>) {
    && RuleDone(code, later, r, width)
    && FansMean(later.ops, later.fans, done + [r])
    && AllWired(later.ops, later.fans, done + [r])
    && GrownByRule(code.ops, later.ops, r)
  }

  /** A CALL, CALLX0 or QUERY node: fails exactly when it refers to a rule not compiled yet. */
  method CompileRule(code: Code, r: Rule, width: nat, ghost done: seq<Rule>) returns (ok: bool, later: Code)
    requires Sound(code, {}) && FitsRule(code, r) && FansMean(code.ops, code.fans, done)
    requires AllWired(code.ops, code.fans, done) && r.name !in code.fans && 1 <= width
    ensures ok <==> RuleResolvable(code.fans, r)
    ensures ok ==> Finished(code, later, r, width, done)
  {
    var a, b;
    ok, later, a, b := CompileOperands(code, r, done);
    if ok {
      RuleFinished(code, later, r, a, b, width, done);
      later := FireAndFan(later, r, a, b, width);
    }
  }

  lemma {:induction false} RuleShaped(code: Code, now: Code, r: Rule, a: nat, b: nat, width: nat, done: seq<Rule>)
    requires Prepared(code, now, r, a, b, done) && Grown(code.ops, now.ops, r.args)
    requires r.name !in code.fans && 1 <= width
    ensures var later := FireAndFan(now, r, a, b, width);
      RuleDone(code, later, r, width) && GrownByRule(code.ops, later.ops, r)
  {
    FireAndFanSound(now, r, a, b, width);
    FireAndFanDone(code, now, r, a, b, width);
    FireAndFanOps(now, r, a, b, width);
  }

  lemma {:induction false} RuleMeant(code: Code, now: Code, r: Rule, a: nat, b: nat, width: nat, done: seq<Rule>)
    requires FansMean(now.ops, now.fans, done) && r.name !in now.fans
    requires ArgsMean(now.ops, a, done, r.args) && Means(now.ops, b, done, r.when)
    requires AllWired(code.ops, code.fans, done) && RuleDone(code, FireAndFan(now, r, a, b, width), r, width)
    ensures var later := FireAndFan(now, r, a, b, width);
      FansMean(later.ops, later.fans, done + [r]) && AllWired(later.ops, later.fans, done + [r])
  {
    hide FansMean, FanMeans, AllWired, RuleWired, ArgsMean, Means, RuleDone;
    var later := FireAndFan(now, r, a, b, width);
    FireAndFanWired(now, r, a, b, width, done);
    FansMeanMore(code, now, later, r, done);
    AllWiredMore(code, later, r, width, done);
  }

  lemma {:induction false} RuleFinished(code: Code, now: Code, r: Rule, a: nat, b: nat, width: nat, done: seq<Rule>)
    requires Prepared(code, now, r, a, b, done) && Grown(code.ops, now.ops, r.args)
    requires AllWired(code.ops, code.fans, done) && r.name !in code.fans && 1 <= width
    ensures Finished(code, FireAndFan(now, r, a, b, width), r, width, done)
  {
    RuleShaped(code, now, r, a, b, width, done);
    RuleMeant(code, now, r, a, b, width, done);
  }
}
