/**
  Compiling the arguments of a rule, and what a compiled rule means
  (flowd/compile.go).

  Arguments are compiled one after the other.  Behind each stands the relay that
  argv() starts for it when there are several, and all of them wait for the argv op
  that reads them.  A rule is wired when its fan-out passes on what its fire op
  computes from its argv and when ops; a rule that is wired stays wired whatever
  is compiled after it.
 */
module CompileRules {
  import opened Text
  import opened Rummy
  import opened FlowOps
  import opened Network
  import opened Rules
  import opened Compile

  // ---- Arguments ---------------------------------------------------------------------------------------

  ghost function Elems(xs: seq<nat>): set<nat> {
    if xs == [] then {} else Elems(xs[..|xs| - 1]) + {xs[|xs| - 1]}
  }

  lemma {:induction false} ElemsAt(xs: seq<nat>, x: nat)
    ensures x in Elems(xs) <==> x in xs
  {
    if xs != [] {
      ElemsAt(xs[..|xs| - 1], x);
      assert xs == xs[..|xs| - 1] + [xs[|xs| - 1]];
    }
  }

  lemma {:induction false} ElemsSnoc(xs: seq<nat>, x: nat)
    ensures Elems(xs + [x]) == Elems(xs) + {x}
  {
    assert (xs + [x])[..|xs|] == xs;
  }

  ghost predicate FitsArgs(code: Code, args: seq<Expr>) {
    forall name :: name in code.fans ==>
      && code.fans[name].op < |code.ops|
      && code.fans[name].next + ArgRefs(args, name) <= code.ops[code.fans[name].op].width
  }

  ghost predicate ArgsBumped(fans: map<string, Fan>, later: map<string, Fan>, args: seq<Expr>) {
    SameFans(fans, later) && forall name :: name in fans ==> later[name].next == fans[name].next + ArgRefs(args, name)
  }

  ghost predicate ArgsResolvable(fans: map<string, Fan>, args: seq<Expr>) {
    forall name :: 0 < ArgRefs(args, name) ==> name in fans
  }

  /** The ops `outs` compute the arguments and wait for a reader. */
  ghost predicate ArgsCompiled(code: Code, later: Code, args: seq<Expr>, outs: seq<nat>, open: set<nat>, done: seq<Rule>) {
    && Prefix(code.ops, later.ops)
    && Sound(later, open + Elems(outs))
    && ArgsBumped(code.fans, later.fans, args)
    && Outs(later.ops, |code.ops|, outs, args, done)
  }

  ghost predicate Outs(ops: seq<Op>, base: nat, outs: seq<nat>, args: seq<Expr>, done: seq<Rule>) {
    && |outs| == |args|
    && (forall k :: 0 <= k < |outs| ==> base <= outs[k] < |ops| && Means(ops, outs[k], done, args[k]))
    && (forall j, k :: 0 <= j < k < |outs| ==> outs[j] < outs[k])
  }

  lemma {:induction false} OutsSnoc(ops: seq<Op>, later: seq<Op>, base: nat, outs: seq<nat>, args: seq<Expr>, e: Expr, done: seq<Rule>)
    requires Prefix(ops, later) && base <= |ops| < |later| && Outs(ops, base, outs, args, done)
    requires Means(later, |later| - 1, done, e)
    ensures Outs(later, base, outs + [|later| - 1], args + [e], done)
  {
    forall k | 0 <= k < |outs| ensures Means(later, outs[k], done, args[k]) {
      MeansLater(ops, later, outs[k], done, args[k]);
    }
  }

  lemma {:induction false} OneSound(code: Code, kind: Kind, open: set<nat>, i: nat)
    requires Sound(code, open + {i}) && i !in open && Arity(kind, 1) && !kind.Fanout?
    ensures Sound(Emit(code, kind, [Chan(i, 0)], 1, if kind.Relay? then 0 else 1), open + {|code.ops|})
  {
    OneSource(open, i);
    OneOpens(open, i);
    EmitSound(code, kind, [Chan(i, 0)], open + {i});
  }

  lemma {:induction false} RelayMeans(ops: seq<Op>, i: nat, e: Expr, done: seq<Rule>)
    requires Means(ops, i, done, e)
    ensures Means(ops + [Op(Relay, [Chan(i, 0)], 1)], |ops|, done, e)
  {
    var op := Op(Relay, [Chan(i, 0)], 1);
    forall w: World, n: nat
      ensures EvalAll(w, n, ops + [op])[|ops|] == EvalExpr(w, n, EvalRules(w, n, done), e)
    {
      EvalSnoc(w, n, ops, op);
      assert Gather(EvalAll(w, n, ops), op.ins)[0] == EvalExpr(w, n, EvalRules(w, n, done), e);
    }
  }

  /** One more argument, passed on by a relay when there are several. */
  lemma {:induction false} RelayCompiled(code: Code, later: Code, e: Expr, open: set<nat>, done: seq<Rule>)
    requires Sound(code, open) && Compiled(code, later, e, open, done)
    ensures Compiled(code, Emit(later, Relay, [Chan(|later.ops| - 1, 0)], 1, 0), e, open, done)
  {
    hide Sound, Means, Bumped, Prefix;
    NewNotOpen(code, open, |later.ops| - 1);
    OneSound(later, Relay, open, |later.ops| - 1);
    RelayMeans(later.ops, |later.ops| - 1, e, done);
    PrefixSnoc(code.ops, later.ops, Op(Relay, [Chan(|later.ops| - 1, 0)], 1));
    Assemble(code, Emit(later, Relay, [Chan(|later.ops| - 1, 0)], 1, 0), e, open, done, |later.ops|);
  }

  lemma {:induction false} ArgSnoc(args: seq<Expr>, i: nat, name: string)
    requires i < |args|
    ensures ArgRefs(args[..i + 1], name) == ArgRefs(args[..i], name) + Refs(args[i], name)
  {
    assert args[..i + 1][..i] == args[..i];
  }

  lemma {:induction false} ArgRefsPrefix(args: seq<Expr>, i: nat, name: string)
    requires i <= |args|
    ensures ArgRefs(args[..i], name) <= ArgRefs(args, name)
  {
    if i < |args| {
      var rest := args[..|args| - 1];
      ArgRefsPrefix(rest, i, name);
      assert rest[..i] == args[..i];
    } else {
      assert args[..i] == args;
    }
  }

  lemma {:induction false} NextArgFits(code: Code, now: Code, args: seq<Expr>, i: nat)
    requires i < |args| && FitsArgs(code, args) && Prefix(code.ops, now.ops) && ArgsBumped(code.fans, now.fans, args[..i])
    ensures Fits(now, args[i])
  {
    forall name | name in now.fans
      ensures now.fans[name].op < |now.ops|
      ensures now.fans[name].next + Refs(args[i], name) <= now.ops[now.fans[name].op].width
    {
      ArgSnoc(args, i, name);
      ArgRefsPrefix(args, i + 1, name);
      assert now.ops[now.fans[name].op] == now.ops[..|code.ops|][code.fans[name].op];
    }
  }

  lemma {:induction false} ArgsBumpedSnoc(fans: map<string, Fan>, now: map<string, Fan>, later: map<string, Fan>, args: seq<Expr>, i: nat)
    requires i < |args| && ArgsBumped(fans, now, args[..i]) && Bumped(now, later, args[i])
    ensures ArgsBumped(fans, later, args[..i + 1])
  {
    forall name | name in fans ensures later[name].next == fans[name].next + ArgRefs(args[..i + 1], name) {
      ArgSnoc(args, i, name);
    }
  }

  lemma {:induction false} ArgsCompiledSnoc(code: Code, now: Code, later: Code, args: seq<Expr>, i: nat, outs: seq<nat>, open: set<nat>, done: seq<Rule>)
    requires i < |args| && ArgsCompiled(code, now, args[..i], outs, open, done)
    requires Compiled(now, later, args[i], open + Elems(outs), done)
    ensures ArgsCompiled(code, later, args[..i + 1], outs + [|later.ops| - 1], open, done)
  {
    hide Sound, Means, Bumped, ArgsBumped, Outs;
    var last := |later.ops| - 1;
    ElemsSnoc(outs, last);
    assert open + Elems(outs) + {last} == open + Elems(outs + [last]);
    ArgsBumpedSnoc(code.fans, now.fans, later.fans, args, i);
    PrefixOf(code.ops, now.ops, later.ops);
    assert args[..i] + [args[i]] == args[..i + 1];
    OutsSnoc(now.ops, later.ops, |code.ops|, outs, args[..i], args[i], done);
    AssembleArgs(code, later, args[..i + 1], outs + [last], open, done);
  }

  lemma {:induction false} AssembleArgs(code: Code, later: Code, args: seq<Expr>, outs: seq<nat>, open: set<nat>, done: seq<Rule>)
    requires Prefix(code.ops, later.ops) && Sound(later, open + Elems(outs))
    requires ArgsBumped(code.fans, later.fans, args) && Outs(later.ops, |code.ops|, outs, args, done)
    ensures ArgsCompiled(code, later, args, outs, open, done)
  {
  }

  lemma {:induction false} PrefixOf(a: seq<Op>, b: seq<Op>, c: seq<Op>)
    requires Prefix(a, b) && Prefix(b, c)
    ensures Prefix(a, c)
  {
    assert c[..|a|] == c[..|b|][..|a|];
  }

  lemma {:induction false} ArgUnresolved(fans: map<string, Fan>, args: seq<Expr>, i: nat)
    requires i < |args| && !Resolvable(fans, args[i])
    ensures !ArgsResolvable(fans, args)
  {
    var name :| 0 < Refs(args[i], name) && name !in fans;
    ArgRefsAt(args, i, name);
  }

  lemma {:induction false} ArgsAllResolved(fans: map<string, Fan>, args: seq<Expr>)
    requires forall i :: 0 <= i < |args| ==> Resolvable(fans, args[i])
    ensures ArgsResolvable(fans, args)
  {
    if args != [] {
      ArgsAllResolved(fans, args[..|args| - 1]);
      assert Resolvable(fans, args[|args| - 1]);
    }
  }

  lemma {:induction false} SameResolvable(fans: map<string, Fan>, later: map<string, Fan>, e: Expr)
    requires SameFans(fans, later)
    ensures Resolvable(fans, e) <==> Resolvable(later, e)
  {
  }

  /** Each argument comes through the relay that argv() starts for it. */
  ghost predicate AllViaRelays(ops: seq<Op>, outs: seq<nat>) {
    forall k :: 0 <= k < |outs| ==> ViaRelay(ops, outs[k])
  }

  lemma {:induction false} ViaRelayLater(ops: seq<Op>, later: seq<Op>, r: nat)
    requires Prefix(ops, later) && ViaRelay(ops, r)
    ensures ViaRelay(later, r)
  {
    assert later[r] == later[..|ops|][r] && later[ops[r].ins[0].src] == later[..|ops|][ops[r].ins[0].src];
  }

  lemma {:induction false} RelayIsVia(later: Code)
    requires EndsPlain(later.ops)
    ensures ViaRelay(Emit(later, Relay, [Chan(|later.ops| - 1, 0)], 1, 0).ops, |later.ops|)
  {
  }

  lemma {:induction false} MoreViaRelays(ops: seq<Op>, later: seq<Op>, outs: seq<nat>)
    requires Prefix(ops, later) && AllViaRelays(ops, outs) && |later| > 0 && ViaRelay(later, |later| - 1)
    ensures AllViaRelays(later, outs + [|later| - 1])
  {
    forall k | 0 <= k < |outs| ensures ViaRelay(later, outs[k]) {
      ViaRelayLater(ops, later, outs[k]);
    }
  }

  /** One argument of several or of one. */
  method CompileArg(code: Code, e: Expr, several: bool, ghost open: set<nat>, ghost done: seq<Rule>)
      returns (ok: bool, later: Code)
    requires Sound(code, open) && Fits(code, e) && FansMean(code.ops, code.fans, done)
    ensures ok <==> Resolvable(code.fans, e)
    ensures ok ==> Compiled(code, later, e, open, done) && FansMean(later.ops, later.fans, done)
    ensures ok ==> Alike(code.ops, later.ops)
    ensures ok ==> |code.ops| < |later.ops|
    ensures ok && several ==> ViaRelay(later.ops, |later.ops| - 1)
  {
    hide Sound, Means, Prefix, FansMean, FanOps, ShortArgvs, Fits, Resolvable, ViaRelay, EndsPlain;
    ok, later := CompileExpr(code, e, open, done);
    if ok {
      if several {
        RelayCompiled(code, later, e, open, done);
        RelayIsVia(later);
        FanOpsSnoc(later.ops, Op(Relay, [Chan(|later.ops| - 1, 0)], 1));
        later := Emit(later, Relay, [Chan(|later.ops| - 1, 0)], 1, 0);
      }
      FansMeanLater(code.ops, later.ops, code.fans, later.fans, done);
    }
  }

  ghost predicate ArgsSoFar(code: Code, later: Code, args: seq<Expr>, i: nat, outs: seq<nat>, done: seq<Rule>) {
    && i <= |args|
    && ArgsCompiled(code, later, args[..i], outs, {}, done)
    && FansMean(later.ops, later.fans, done)
    && (forall k :: 0 <= k < i ==> Resolvable(code.fans, args[k]))
    && Alike(code.ops, later.ops)
    && (1 < |args| ==> AllViaRelays(later.ops, outs))
  }

  lemma {:induction false} ArgsStart(code: Code, args: seq<Expr>, done: seq<Rule>)
    requires Sound(code, {}) && FansMean(code.ops, code.fans, done)
    ensures ArgsSoFar(code, code, args, 0, [], done)
  {
    assert {} + Elems([]) == {};
    assert args[..0] == [];
  }

  lemma {:induction false} ArgsSameFans(code: Code, later: Code, args: seq<Expr>, outs: seq<nat>, open: set<nat>, done: seq<Rule>)
    requires ArgsCompiled(code, later, args, outs, open, done)
    ensures SameFans(code.fans, later.fans)
  {
  }

  lemma {:induction false} ArgsNext(code: Code, now: Code, later: Code, args: seq<Expr>, i: nat, outs: seq<nat>, done: seq<Rule>)
    requires i < |args| && ArgsSoFar(code, now, args, i, outs, done)
    requires Resolvable(now.fans, args[i])
    requires Compiled(now, later, args[i], {} + Elems(outs), done) && FansMean(later.ops, later.fans, done)
    requires Alike(now.ops, later.ops) && (1 < |args| ==> ViaRelay(later.ops, |later.ops| - 1))
    ensures ArgsSoFar(code, later, args, i + 1, outs + [|later.ops| - 1], done)
  {
    hide Sound, Means, FansMean, FanOps, ShortArgvs, ViaRelay, AllViaRelays, Prefix, ArgsCompiled, Bumped, SameFans;
    ArgsSameFans(code, now, args[..i], outs, {}, done);
    SameResolvable(code.fans, now.fans, args[i]);
    ArgsCompiledSnoc(code, now, later, args, i, outs, {}, done);
    if 1 < |args| {
      MoreViaRelays(now.ops, later.ops, outs);
    }
  }

  lemma {:induction false} ArgsEnd(code: Code, later: Code, args: seq<Expr>, outs: seq<nat>, done: seq<Rule>)
    requires ArgsSoFar(code, later, args, |args|, outs, done)
    ensures ArgsResolvable(code.fans, args)
    ensures ArgsCompiled(code, later, args, outs, {}, done) && FansMean(later.ops, later.fans, done)
    ensures Alike(code.ops, later.ops) && (1 < |args| ==> AllViaRelays(later.ops, outs))
  {
    ArgsAllResolved(code.fans, args);
    assert args[..|args|] == args;
  }

  lemma {:induction false} ArgReady(code: Code, now: Code, args: seq<Expr>, i: nat, outs: seq<nat>, done: seq<Rule>)
    requires i < |args| && ArgsSoFar(code, now, args, i, outs, done) && FitsArgs(code, args)
    ensures Sound(now, {} + Elems(outs)) && Fits(now, args[i]) && FansMean(now.ops, now.fans, done)
    ensures !Resolvable(now.fans, args[i]) ==> !ArgsResolvable(code.fans, args)
  {
    NextArgFits(code, now, args, i);
    SameResolvable(code.fans, now.fans, args[i]);
    if !Resolvable(now.fans, args[i]) {
      ArgUnresolved(code.fans, args, i);
    }
  }

  /** The arguments of a rule, each behind the relay argv() starts for it when there are several. */
  method CompileArgs(code: Code, args: seq<Expr>, ghost done: seq<Rule>)
      returns (ok: bool, later: Code, outs: seq<nat>)
    requires Sound(code, {}) && FitsArgs(code, args) && FansMean(code.ops, code.fans, done)
    ensures ok <==> ArgsResolvable(code.fans, args)
    ensures ok ==> ArgsCompiled(code, later, args, outs, {}, done) && FansMean(later.ops, later.fans, done)
    ensures ok ==> Alike(code.ops, later.ops)
    ensures ok && 1 < |args| ==> AllViaRelays(later.ops, outs)
  {
    hide Sound, ArgsSoFar, FansMean, FitsArgs, ArgsResolvable, AllViaRelays, Resolvable, ArgsCompiled, Compiled, Alike;
    later, outs := code, [];
    ArgsStart(code, args, done);
    for i := 0 to |args|
      invariant ArgsSoFar(code, later, args, i, outs, done)
    {
      var now := later;
      ArgReady(code, now, args, i, outs, done);
      ok, later := CompileArg(now, args[i], 1 < |args|, {} + Elems(outs), done);
      if !ok {
        return;
      }
      ArgsNext(code, now, later, args, i, outs, done);
      outs := outs + [|later.ops| - 1];
    }
    ArgsEnd(code, later, args, outs, done);
    ok := true;
  }

  // ---- The argument vector ------------------------------------------------------------------------------

  /** Op `i` is the argv op of the arguments, reads each through a relay if there are several, and computes their vector. */
  ghost predicate ArgsMean(ops: seq<Op>, i: nat, done: seq<Rule>, args: seq<Expr>) {
    && i < |ops| && ops[i].kind == ArgvKind(|args|) && |ops[i].ins| == |args|
    && (1 < |args| ==> FedByRelays(ops, i))
    && forall w: World, n: nat :: EvalAll(w, n, ops)[i] == EvalArgs(w, n, EvalRules(w, n, done), args)
  }

  function Channels(outs: seq<nat>): seq<Chan> {
    seq(|outs|, k requires 0 <= k < |outs| => Chan(outs[k], 0))
  }

  /** ARGV0, ARGV1 or ARGV by the number of arguments. */
  function ArgvKind(argc: nat): Kind {
    if argc == 0 then Const(ArgvV(false, [])) else if argc == 1 then Un(Argv1) else Argv(argc)
  }

  lemma {:induction false} ArgvMeans(ops: seq<Op>, base: nat, outs: seq<nat>, args: seq<Expr>, done: seq<Rule>)
    requires Outs(ops, base, outs, args, done) && (1 < |args| ==> AllViaRelays(ops, outs))
    ensures ArgsMean(ops + [Op(ArgvKind(|args|), Channels(outs), 1)], |ops|, done, args)
  {
    var op := Op(ArgvKind(|args|), Channels(outs), 1);
    if 1 < |args| {
      forall p | 0 <= p < |outs| ensures ViaRelay(ops + [op], op.ins[p].src) {
        ViaRelayLater(ops, ops + [op], outs[p]);
      }
    }
    forall w: World, n: nat
      ensures EvalAll(w, n, ops + [op])[|ops|] == EvalArgs(w, n, EvalRules(w, n, done), args)
    {
      var env, vals := EvalRules(w, n, done), Gather(EvalAll(w, n, ops), op.ins);
      EvalSnoc(w, n, ops, op);
      forall k | 0 <= k < |args| ensures vals[k] == EvalExpr(w, n, env, args[k]) {
        assert Means(ops, outs[k], done, args[k]);
      }
      assert vals == EvalEach(w, n, env, args);
      ArgvKinds(w, n, vals);
    }
  }

  lemma {:induction false} ArgsMeanLater(ops: seq<Op>, later: seq<Op>, i: nat, done: seq<Rule>, args: seq<Expr>)
    requires Prefix(ops, later) && ArgsMean(ops, i, done, args)
    ensures ArgsMean(later, i, done, args)
  {
    assert later[i] == later[..|ops|][i];
    if 1 < |args| {
      forall p | 0 <= p < |ops[i].ins| ensures ViaRelay(later, later[i].ins[p].src) {
        ViaRelayLater(ops, later, ops[i].ins[p].src);
      }
    }
    forall w: World, n: nat ensures EvalAll(w, n, later)[i] == EvalArgs(w, n, EvalRules(w, n, done), args) {
      SameValue(w, n, ops, later, i);
    }
  }

  lemma {:induction false} ArgvKinds(w: World, n: nat, vals: seq<Val>)
    ensures OpSpec(w, n, ArgvKind(|vals|), vals) == ArgvSpec(vals)
  {
    if |vals| == 0 {
      assert ArgvSpec(vals).argv == [];
    } else if |vals| == 1 {
      assert ArgvSpec(vals).argv == [StringOf(vals[0])];
      assert ArgvSpec(vals).isNull <==> IsNullString(vals[0]);
    }
  }

  lemma {:induction false} ChannelSources(outs: seq<nat>)
    requires forall j, k :: 0 <= j < k < |outs| ==> outs[j] < outs[k]
    ensures Opens(Channels(outs), {} + Elems(outs))
    ensures {} + Elems(outs) - Sources(Channels(outs)) == {}
  {
    var cs := Channels(outs);
    forall k | 0 <= k < |cs| ensures cs[k].src in Elems(outs) {
      ElemsAt(outs, outs[k]);
    }
    forall x | x in Elems(outs) ensures x in Sources(cs) {
      ElemsAt(outs, x);
      var k :| 0 <= k < |outs| && outs[k] == x;
      assert cs[k] in cs && cs[k].src == x;
    }
  }

  lemma {:induction false} ArgvSound(code: Code, outs: seq<nat>)
    requires Sound(code, {} + Elems(outs)) && forall j, k :: 0 <= j < k < |outs| ==> outs[j] < outs[k]
    ensures Sound(Emit(code, ArgvKind(|outs|), Channels(outs), 1, 1), {|code.ops|})
  {
    ChannelSources(outs);
    AllRead(code, ArgvKind(|outs|), Channels(outs), {} + Elems(outs));
  }

  /** An op that reads every waiting outlet is the only one left waiting. */
  lemma {:induction false} AllRead(code: Code, kind: Kind, ins: seq<Chan>, open: set<nat>)
    requires Sound(code, open) && Opens(ins, open) && Arity(kind, |ins|) && !kind.Fanout? && !kind.Relay?
    requires open - Sources(ins) == {}
    ensures Sound(Emit(code, kind, ins, 1, 1), {|code.ops|})
  {
    EmitSound(code, kind, ins, open);
    assert {} + {|code.ops|} == {|code.ops|};
  }

  // ---- A rule -----------------------------------------------------------------------------------------------

  /** Op `i` computes the rule's record. */
  ghost predicate RuleMeans(ops: seq<Op>, i: nat, done: seq<Rule>, r: Rule) {
    i < |ops| && forall w: World, n: nat :: EvalAll(w, n, ops)[i] == EvalRule(w, n, EvalRules(w, n, done), r)
  }

  lemma {:induction false} FireMeans(ops: seq<Op>, a: nat, b: nat, r: Rule, done: seq<Rule>)
    requires ArgsMean(ops, a, done, r.args) && Means(ops, b, done, r.when)
    ensures RuleMeans(ops + [Op(Fire(r.name, r.builtin), [Chan(a, 0), Chan(b, 0)], 1)], |ops|, done, r)
  {
    var op := Op(Fire(r.name, r.builtin), [Chan(a, 0), Chan(b, 0)], 1);
    forall w: World, n: nat
      ensures EvalAll(w, n, ops + [op])[|ops|] == EvalRule(w, n, EvalRules(w, n, done), r)
    {
      EvalSnoc(w, n, ops, op);
      var vals := Gather(EvalAll(w, n, ops), op.ins);
      assert vals[0] == EvalArgs(w, n, EvalRules(w, n, done), r.args);
      assert vals[1] == EvalExpr(w, n, EvalRules(w, n, done), r.when);
    }
  }

  lemma {:induction false} FanoutMeans(ops: seq<Op>, i: nat, width: nat, r: Rule, done: seq<Rule>)
    requires RuleMeans(ops, i, done, r)
    ensures FanMeans(ops + [Op(Fanout, [Chan(i, 0)], width)], |ops|, done + [r], r.name)
  {
    var op := Op(Fanout, [Chan(i, 0)], width);
    forall w: World, n: nat
      ensures EvalAll(w, n, ops + [op])[|ops|] == Lookup(EvalRules(w, n, done + [r]), r.name)
    {
      EvalSnoc(w, n, ops, op);
      assert Gather(EvalAll(w, n, ops), op.ins)[0] == EvalRule(w, n, EvalRules(w, n, done), r);
      assert (done + [r])[..|done|] == done;
    }
  }

  /** A rule compiled later does not change the records of the others. */
  lemma {:induction false} FanMeansMore(ops: seq<Op>, i: nat, done: seq<Rule>, name: string, r: Rule)
    requires FanMeans(ops, i, done, name) && name != r.name
    ensures FanMeans(ops, i, done + [r], name)
  {
    forall w: World, n: nat
      ensures EvalAll(w, n, ops)[i] == Lookup(EvalRules(w, n, done + [r]), name)
    {
      assert (done + [r])[..|done|] == done;
    }
  }

  lemma {:induction false} NamedSnoc(done: seq<Rule>, r: Rule, name: string)
    ensures Named(done + [r], name) <==> Named(done, name) || name == r.name
  {
    var more := done + [r];
    if Named(done, name) {
      var k :| 0 <= k < |done| && done[k].name == name;
      assert more[k].name == name;
    }
    if name == r.name {
      assert more[|done|].name == name;
    }
    if Named(more, name) && name != r.name {
      var k :| 0 <= k < |more| && more[k].name == name;
      assert done[k].name == name;
    }
  }

  /** The rule's fan-out, its fire op, and the argv and when ops that feed it. */
  ghost predicate RuleWired(ops: seq<Op>, i: nat, r: Rule, done: seq<Rule>) {
    && i < |ops| && |ops[i].ins| == 1
    && var fire := ops[i].ins[0].src;
    && fire < |ops| && ops[fire].kind == Fire(r.name, r.builtin) && |ops[fire].ins| == 2
    && RuleMeans(ops, fire, done, r)
    && ArgsMean(ops, ops[fire].ins[0].src, done, r.args)
    && Means(ops, ops[fire].ins[1].src, done, r.when)
  }

  lemma {:induction false} RuleWiredLater(ops: seq<Op>, later: seq<Op>, i: nat, r: Rule, done: seq<Rule>)
    requires Prefix(ops, later) && RuleWired(ops, i, r, done)
    ensures RuleWired(later, i, r, done)
  {
    var fire := ops[i].ins[0].src;
    assert later[i] == later[..|ops|][i] && later[fire] == later[..|ops|][fire];
    MeansLater(ops, later, ops[fire].ins[1].src, done, r.when);
    ArgsMeanLater(ops, later, ops[fire].ins[0].src, done, r.args);
    forall w: World, n: nat
      ensures EvalAll(w, n, later)[fire] == EvalRule(w, n, EvalRules(w, n, done), r)
    {
      SameValue(w, n, ops, later, fire);
    }
  }

  /** Every rule compiled is wired as its own tree says. */
  ghost predicate AllWired(ops: seq<Op>, fans: map<string, Fan>, done: seq<Rule>) {
    forall k :: 0 <= k < |done| ==>
      done[k].name in fans && RuleWired(ops, fans[done[k].name].op, done[k], done[..k])
  }
}
