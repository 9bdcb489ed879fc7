/**
  compile() as a whole and what it guarantees (flowd/compile.go).

  For a program in dependency order it returns a well-formed network whose count of
  waiting goroutines is right and in which every rule's argv, when and fire op computes
  what the rule means.
 */
module Compiler {
  import opened Text
  import opened Rummy
  import opened FlowOps
  import opened Network
  import opened Rules
  import opened Compile
  import opened CompileRules
  import opened CompileProgram

  /** The parser's limit: depend_ref_count is a uint8. */
  const MAX_REFS := 255

  /** The fan-out of a rule has one outlet more than there are references, in eight bits. */
  function Width(refs: nat): nat {
    (refs + 1) % 256
  }

  /** It is 0 for 255 references alone. */
  lemma {:induction false} WidthFits(refs: nat)
    requires refs <= MAX_REFS
    ensures if Width(refs) == 0 then refs == MAX_REFS else Width(refs) == refs + 1
  {
  }

  /** The parser rejects a file with more references than fit the counter. */
  ghost predicate Parsed(prog: seq<Rule>) {
    DistinctNames(prog) && forall name :: RefCount(prog, name) <= MAX_REFS
  }

  /** argv() counts its arguments in eight bits, and nothing checks that they fit. */
  ghost predicate ArgsCountable(prog: seq<Rule>) {
    forall k :: 0 <= k < |prog| ==> |prog[k].args| < COUNTER
  }

  ghost predicate Compilable(prog: seq<Rule>) {
    InOrder(prog) && forall k :: 0 <= k < |prog| ==> (RefCount(prog, prog[k].name) + 1) % 256 != 0
  }

  // ---- The rules, one after the other -------------------------------------------------------------------

  ghost predicate FanSized(code: Code, prog: seq<Rule>, k: nat, name: string)
    requires name in code.fans && k <= |prog|
  {
    && code.fans[name].op < |code.ops|
    && code.fans[name].next == 1 + RefCount(prog[..k], name)
    && code.ops[code.fans[name].op].width == 1 + RefCount(prog, name)
  }

  ghost predicate Owned(code: Code) {
    forall i :: i in FanOps(code.ops) ==> exists name :: name in code.fans && code.fans[name].op == i
  }

  ghost predicate RulesDone(code: Code, prog: seq<Rule>, k: nat) {
    && k <= |prog|
    && Sound(code, {})
    && FansMean(code.ops, code.fans, prog[..k])
    && AllWired(code.ops, code.fans, prog[..k])
    && (forall name :: name in code.fans ==> FanSized(code, prog, k, name))
    && Owned(code)
    && (ShortArgvs(code.ops) <==> ArgsCountable(prog[..k]))
  }

  lemma {:induction false} CountableSnoc(prog: seq<Rule>, k: nat)
    requires k < |prog|
    ensures ArgsCountable(prog[..k + 1]) <==> ArgsCountable(prog[..k]) && |prog[k].args| < COUNTER
  {
    var less, more := prog[..k], prog[..k + 1];
    assert forall j :: 0 <= j < k ==> less[j] == more[j];
    assert more[k] == prog[k];
  }

  lemma {:induction false} RuleFits(code: Code, prog: seq<Rule>, k: nat)
    requires RulesDone(code, prog, k) && k < |prog|
    ensures FitsRule(code, prog[k])
  {
    forall name | name in code.fans
      ensures code.fans[name].op < |code.ops|
      ensures code.fans[name].next + RuleRefs(prog[k], name) <= code.ops[code.fans[name].op].width
    {
      assert FanSized(code, prog, k, name);
      RefCountPrefix(prog, k, name);
    }
  }

  lemma {:induction false} NewName(code: Code, prog: seq<Rule>, k: nat)
    requires DistinctNames(prog) && k < |prog| && FansMean(code.ops, code.fans, prog[..k])
    ensures prog[k].name !in code.fans
  {
    assert !Named(prog[..k], prog[k].name);
  }

  lemma {:induction false} SizedOld(code: Code, later: Code, prog: seq<Rule>, k: nat, width: nat, name: string)
    requires k < |prog| && name in code.fans && FanSized(code, prog, k, name) && name in later.fans
    requires Prefix(code.ops, later.ops)
    requires later.fans[name] == Fan(code.fans[name].op, code.fans[name].next + RuleRefs(prog[k], name))
    ensures FanSized(later, prog, k + 1, name)
  {
    assert prog[..k + 1][..k] == prog[..k];
    assert later.ops[later.fans[name].op] == later.ops[..|code.ops|][code.fans[name].op];
  }

  lemma {:induction false} SizedNext(code: Code, later: Code, prog: seq<Rule>, k: nat, width: nat)
    requires k < |prog| && (forall name :: name in code.fans ==> FanSized(code, prog, k, name))
    requires width == 1 + RefCount(prog, prog[k].name)
    requires RuleDone(code, later, prog[k], width) && RefCount(prog[..k + 1], prog[k].name) == 0
    ensures forall name :: name in later.fans ==> FanSized(later, prog, k + 1, name)
  {
    hide Sound;
    forall name | name in later.fans ensures FanSized(later, prog, k + 1, name) {
      if name != prog[k].name {
        SizedOld(code, later, prog, k, width, name);
      }
    }
  }

  /** Rules in order never refer to a later one. */
  lemma {:induction false} NoRefs(prog: seq<Rule>, name: string)
    requires InOrder(prog) && !Named(prog, name)
    ensures RefCount(prog, name) == 0
  {
    if prog != [] {
      var n := |prog| - 1;
      InOrderPrefix(prog, n);
      NamedSnoc(prog[..n], prog[n], name);
      assert prog[..n] + [prog[n]] == prog;
      NoRefs(prog[..n], name);
      assert RuleRefs(prog[n], name) == 0;
    }
  }

  lemma {:induction false} NotYetReferred(code: Code, prog: seq<Rule>, k: nat)
    requires DistinctNames(prog) && k < |prog| && FansMean(code.ops, code.fans, prog[..k]) && InOrder(prog[..k])
    requires RuleResolvable(code.fans, prog[k])
    ensures RefCount(prog[..k + 1], prog[k].name) == 0
  {
    hide InOrder;
    var name := prog[k].name;
    NewName(code, prog, k);
    NoRefs(prog[..k], name);
    assert prog[..k + 1][..k] == prog[..k];
    assert RuleRefs(prog[k], name) == 0;
  }

  lemma {:induction false} OwnedNext(code: Code, later: Code, r: Rule, width: nat)
    requires Owned(code) && RuleDone(code, later, r, width) && GrownByRule(code.ops, later.ops, r)
    requires r.name !in code.fans
    ensures Owned(later)
  {
    forall i | i in FanOps(later.ops) ensures exists name :: name in later.fans && later.fans[name].op == i {
      if i in FanOps(code.ops) {
        var name :| name in code.fans && code.fans[name].op == i;
        assert name in later.fans && later.fans[name].op == i;
      } else {
        assert later.fans[r.name].op == i;
      }
    }
  }

  lemma {:induction false} RulesNext(code: Code, later: Code, prog: seq<Rule>, k: nat, width: nat)
    requires DistinctNames(prog) && RulesDone(code, prog, k) && k < |prog| && InOrder(prog[..k])
    requires width == 1 + RefCount(prog, prog[k].name)
    requires RuleResolvable(code.fans, prog[k]) && Finished(code, later, prog[k], width, prog[..k])
    ensures RulesDone(later, prog, k + 1) && InOrder(prog[..k + 1])
  {
    hide Sound, FansMean, AllWired, FanSized, Owned, InOrder, RuleResolvable, ShortArgvs, ArgsCountable, RefCount, DistinctNames, FanOps;
    assert prog[..k] + [prog[k]] == prog[..k + 1];
    NewName(code, prog, k);
    NotYetReferred(code, prog, k);
    SizedNext(code, later, prog, k, width);
    OwnedNext(code, later, prog[k], width);
    CountableSnoc(prog, k);
    InOrderNext(code, prog, k);
  }

  lemma {:induction false} InOrderNext(code: Code, prog: seq<Rule>, k: nat)
    requires k < |prog| && FansMean(code.ops, code.fans, prog[..k]) && InOrder(prog[..k])
    ensures RuleResolvable(code.fans, prog[k]) <==> InOrder(prog[..k + 1])
  {
    var more := prog[..k + 1];
    assert more[k] == prog[k] && more[..k] == prog[..k];
    if RuleResolvable(code.fans, prog[k]) {
      forall j, name | 0 <= j < |more| && 0 < RuleRefs(more[j], name) ensures Named(more[..j], name) {
        if j < k {
          assert prog[..k][j] == more[j] && prog[..k][..j] == more[..j];
        }
      }
    }
    if InOrder(more) {
      forall name | 0 < RuleRefs(prog[k], name) ensures name in code.fans {
        assert 0 < RuleRefs(more[k], name);
      }
    }
  }

  lemma {:induction false} InOrderPrefix(prog: seq<Rule>, k: nat)
    requires InOrder(prog) && k <= |prog|
    ensures InOrder(prog[..k])
  {
    forall j, name | 0 <= j < k && 0 < RuleRefs(prog[..k][j], name) ensures Named(prog[..k][..j], name) {
      assert prog[..k][j] == prog[j] && prog[..k][..j] == prog[..j];
    }
  }

  /** The loop over depend_order.  It stops exactly at a program that is not compilable. */
  method CompileRulesInOrder(prog: seq<Rule>) returns (ok: bool, code: Code)
    requires Parsed(prog)
    ensures ok <==> Compilable(prog)
    ensures ok ==> RulesDone(code, prog, |prog|)
  {
    hide Sound, FansMean, AllWired, FanSized, Owned, InOrder, RuleResolvable, FitsRule, Finished, ShortArgvs, FanOps, RefCount;
    code := Code([], map[], 0);
    StartDone(prog);
    for k := 0 to |prog|
      invariant RulesDone(code, prog, k)
      invariant InOrder(prog[..k])
      invariant forall j :: 0 <= j < k ==> (RefCount(prog, prog[j].name) + 1) % 256 != 0
    {
      var width := Width(RefCount(prog, prog[k].name));
      if width == 0 {
        return false, code;
      }
      RuleFits(code, prog, k);
      NewName(code, prog, k);
      InOrderNext(code, prog, k);
      if Compilable(prog) {
        InOrderPrefix(prog, k + 1);
      }
      ghost var before := code;
      WidthFits(RefCount(prog, prog[k].name));
      ok, code := CompileRule(code, prog[k], width, prog[..k]);
      if !ok {
        return;
      }
      RulesNext(before, code, prog, k, width);
    }
    assert prog[..|prog|] == prog;
    ok := true;
  }

  lemma {:induction false} StartDone(prog: seq<Rule>)
    ensures RulesDone(Code([], map[], 0), prog, 0) && InOrder(prog[..0])
  {
    assert prog[..0] == [];
    assert GatedFlags([]) == [];
  }

  // ---- Logging and reducing ----------------------------------------------------------------------------------

  /** The part of Sound that does not speak of fan-outs. */
  ghost predicate Plain(code: Code, open: set<nat>) {
    Wired(code.ops) && Dangling(code.ops, open) && code.confluent == GatedCount(code.ops)
  }

  lemma {:induction false} EmitPlain(code: Code, kind: Kind, ins: seq<Chan>, open: set<nat>)
    requires Plain(code, open) && Opens(ins, open) && Arity(kind, |ins|) && !kind.Fanout? && !kind.Argv?
    ensures Plain(Emit(code, kind, ins, 1, if kind.Relay? then 0 else 1), open - Sources(ins) + {|code.ops|})
    ensures Alike(code.ops, code.ops + [Op(kind, ins, 1)])
  {
    hide Wired, Dangling, Joins, GatedCount;
    var op := Op(kind, ins, 1);
    OpensJoin(code.ops, kind, ins, 1, open);
    WiredSnoc(code.ops, op);
    DanglingSnoc(code.ops, op, open);
    GatedSnoc(code.ops, op);
    FanOpsSnoc(code.ops, op);
  }

  lemma {:induction false} OnePlain(code: Code, kind: Kind, open: set<nat>, i: nat)
    requires Plain(code, open + {i}) && i !in open && Arity(kind, 1) && !kind.Fanout? && !kind.Argv?
    ensures Plain(Emit(code, kind, [Chan(i, 0)], 1, if kind.Relay? then 0 else 1), open + {|code.ops|})
    ensures Alike(code.ops, code.ops + [Op(kind, [Chan(i, 0)], 1)])
  {
    hide Plain;
    OneSource(open, i);
    OneOpens(open, i);
    EmitPlain(code, kind, [Chan(i, 0)], open + {i});
  }

  /** log_xdr or log_qdr on the outlet 0 of a fan-out, then the relays of log_*_error and of reduce. */
  function EmitLog(code: Code, fan: nat): Code {
    var log := Emit(code, Un(Log), [Chan(fan, 0)], 1, 1);
    var err := Emit(log, Relay, [Chan(|code.ops|, 0)], 1, 0);
    Emit(err, Relay, [Chan(|code.ops| + 1, 0)], 1, 0)
  }

  lemma {:induction false} FirstLogPlain(code: Code, fan: nat, open: set<nat>)
    requires Plain(code, open) && fan < |code.ops| && code.ops[fan].kind.Fanout? && !Read(code.ops, Chan(fan, 0))
    ensures Plain(Emit(code, Un(Log), [Chan(fan, 0)], 1, 1), open + {|code.ops|})
    ensures Alike(code.ops, code.ops + [Op(Un(Log), [Chan(fan, 0)], 1)])
  {
    hide Dangling, GatedCount;
    var op := Op(Un(Log), [Chan(fan, 0)], 1);
    WiredWidth(code.ops, fan);
    WiredSnoc(code.ops, op);
    RefDangling(code.ops, op, open);
    GatedSnoc(code.ops, op);
    FanOpsSnoc(code.ops, op);
  }

  lemma {:induction false} OpenIsOld(code: Code, open: set<nat>, i: nat)
    requires Plain(code, open) && |code.ops| <= i
    ensures i !in open
  {
  }

  lemma {:induction false} LogPlain(code: Code, fan: nat, open: set<nat>)
    requires Plain(code, open) && fan < |code.ops| && code.ops[fan].kind.Fanout? && !Read(code.ops, Chan(fan, 0))
    ensures Plain(EmitLog(code, fan), open + {|code.ops| + 2})
    ensures Alike(code.ops, EmitLog(code, fan).ops)
  {
    hide Plain, FanOps, ShortArgvs;
    var n := |code.ops|;
    var log := Emit(code, Un(Log), [Chan(fan, 0)], 1, 1);
    OpenIsOld(code, open, n);
    OpenIsOld(code, open, n + 1);
    FirstLogPlain(code, fan, open);
    OnePlain(log, Relay, open, n);
    OnePlain(Emit(log, Relay, [Chan(n, 0)], 1, 0), Relay, open, n + 1);
  }

  lemma {:induction false} LogReads(code: Code, fan: nat, c: Chan)
    requires c.src < |code.ops|
    ensures Read(EmitLog(code, fan).ops, c) <==> Read(code.ops, c) || c == Chan(fan, 0)
  {
    var log := Emit(code, Un(Log), [Chan(fan, 0)], 1, 1);
    var err := Emit(log, Relay, [Chan(|code.ops|, 0)], 1, 0);
    ReadSnoc(code.ops, Op(Un(Log), [Chan(fan, 0)], 1));
    ReadSnoc(log.ops, Op(Relay, [Chan(|code.ops|, 0)], 1));
    ReadSnoc(err.ops, Op(Relay, [Chan(|code.ops| + 1, 0)], 1));
    assert [Chan(fan, 0)][0] in [Chan(fan, 0)];
  }

  lemma {:induction false} PassMeans(ops: seq<Op>, kind: Kind, c: Chan, done: seq<Rule>, name: string)
    requires FanMeans(ops, c.src, done, name) && (kind == Relay || kind == Un(Log))
    ensures FanMeans(ops + [Op(kind, [c], 1)], |ops|, done, name)
  {
    var op := Op(kind, [c], 1);
    forall w: World, n: nat
      ensures EvalAll(w, n, ops + [op])[|ops|] == Lookup(EvalRules(w, n, done), name)
    {
      EvalSnoc(w, n, ops, op);
      assert Gather(EvalAll(w, n, ops), [c])[0] == Lookup(EvalRules(w, n, done), name);
    }
  }

  lemma {:induction false} LogMeans(code: Code, fan: nat, done: seq<Rule>, name: string)
    requires FanMeans(code.ops, fan, done, name)
    ensures FanMeans(EmitLog(code, fan).ops, |code.ops| + 2, done, name)
  {
    var log := Emit(code, Un(Log), [Chan(fan, 0)], 1, 1);
    var err := Emit(log, Relay, [Chan(|code.ops|, 0)], 1, 0);
    PassMeans(code.ops, Un(Log), Chan(fan, 0), done, name);
    PassMeans(log.ops, Relay, Chan(|code.ops|, 0), done, name);
    PassMeans(err.ops, Relay, Chan(|code.ops| + 1, 0), done, name);
  }

  /** Every outlet of the fan-out has a reader, the first only once it is logged. */
  ghost predicate SlotLogged(ops: seq<Op>, fan: Fan, logged: bool) {
    && fan.op < |ops| && ops[fan.op].kind.Fanout?
    && (forall k: nat :: k < ops[fan.op].width ==> (Read(ops, Chan(fan.op, k)) <==> 1 <= k || logged))
  }

  ghost predicate LogOuts(ops: seq<Op>, outs: seq<nat>, prog: seq<Rule>) {
    && |outs| <= |prog|
    && (forall j :: 0 <= j < |outs| ==> FanMeans(ops, outs[j], prog, prog[j].name))
    && (forall j, k :: 0 <= j < k < |outs| ==> outs[j] < outs[k])
  }

  ghost predicate SlotsLogged(ops: seq<Op>, fans: map<string, Fan>, prog: seq<Rule>, k: nat) {
    && (forall j :: 0 <= j < |prog| ==> prog[j].name in fans && SlotLogged(ops, fans[prog[j].name], j < k))
    && (forall i, j :: 0 <= i < j < |prog| ==> prog[i].name in fans && prog[j].name in fans && fans[prog[i].name].op != fans[prog[j].name].op)
  }

  ghost predicate Logging(start: Code, code: Code, prog: seq<Rule>, outs: seq<nat>) {
    && Prefix(start.ops, code.ops) && code.fans == start.fans
    && Plain(code, Elems(outs)) && Alike(start.ops, code.ops)
    && LogOuts(code.ops, outs, prog)
    && SlotsLogged(code.ops, code.fans, prog, |outs|)
  }

  lemma {:induction false} LoggingStart(code: Code, prog: seq<Rule>)
    requires DistinctNames(prog) && RulesDone(code, prog, |prog|)
    ensures Logging(code, code, prog, [])
  {
    assert prog[..|prog|] == prog;
    forall j | 0 <= j < |prog|
      ensures prog[j].name in code.fans && SlotLogged(code.ops, code.fans[prog[j].name], false)
    {
      var name := prog[j].name;
      assert Named(prog, name);
      assert FanSized(code, prog, |prog|, name) && SlotOk(code.ops, code.fans[name]);
    }
  }

  lemma {:induction false} SlotsLoggedNext(code: Code, later: Code, fans: map<string, Fan>, prog: seq<Rule>, k: nat)
    requires k < |prog| && SlotsLogged(code.ops, fans, prog, k) && later == EmitLog(code, fans[prog[k].name].op)
    ensures SlotsLogged(later.ops, fans, prog, k + 1)
  {
    var fan := fans[prog[k].name].op;
    forall j | 0 <= j < |prog| ensures SlotLogged(later.ops, fans[prog[j].name], j < k + 1) {
      var f := fans[prog[j].name];
      assert SlotLogged(code.ops, f, j < k);
      assert later.ops[f.op] == code.ops[f.op];
      forall c: nat | c < code.ops[f.op].width
        ensures Read(later.ops, Chan(f.op, c)) <==> 1 <= c || j < k + 1
      {
        LogReads(code, fan, Chan(f.op, c));
      }
    }
  }

  lemma {:induction false} LogOutsNext(code: Code, later: Code, outs: seq<nat>, prog: seq<Rule>, fan: nat)
    requires LogOuts(code.ops, outs, prog) && |outs| < |prog| && later == EmitLog(code, fan)
    requires FanMeans(code.ops, fan, prog, prog[|outs|].name)
    ensures LogOuts(later.ops, outs + [|code.ops| + 2], prog)
  {
    LogMeans(code, fan, prog, prog[|outs|].name);
    forall j | 0 <= j < |outs| ensures FanMeans(later.ops, outs[j], prog, prog[j].name) {
      FanMeansLater(code.ops, later.ops, outs[j], prog, prog[j].name);
    }
  }

  lemma {:induction false} LoggingFan(start: Code, code: Code, prog: seq<Rule>, outs: seq<nat>)
    requires Logging(start, code, prog, outs) && |outs| < |prog| && FansMean(start.ops, start.fans, prog)
    ensures var name := prog[|outs|].name;
      && name in code.fans && code.fans[name].op < |code.ops| && code.ops[code.fans[name].op].kind.Fanout?
      && !Read(code.ops, Chan(code.fans[name].op, 0))
      && FanMeans(code.ops, code.fans[name].op, prog, name)
  {
    var name := prog[|outs|].name;
    var fan := code.fans[name];
    assert SlotLogged(code.ops, fan, false);
    WiredWidth(code.ops, fan.op);
    FanMeansLater(start.ops, code.ops, fan.op, prog, name);
  }

  lemma {:induction false} LoggingNext(start: Code, code: Code, prog: seq<Rule>, outs: seq<nat>, fan: nat)
    requires Logging(start, code, prog, outs) && |outs| < |prog|
    requires prog[|outs|].name in code.fans && fan == code.fans[prog[|outs|].name].op < |code.ops|
    requires code.ops[fan].kind.Fanout? && !Read(code.ops, Chan(fan, 0))
    requires FanMeans(code.ops, fan, prog, prog[|outs|].name)
    ensures Logging(start, EmitLog(code, fan), prog, outs + [|code.ops| + 2])
  {
    hide Plain, LogOuts, SlotsLogged, FanOps, ShortArgvs;
    var later := EmitLog(code, fan);
    LogPlain(code, fan, Elems(outs));
    ElemsSnoc(outs, |code.ops| + 2);
    LogOutsNext(code, later, outs, prog, fan);
    SlotsLoggedNext(code, later, code.fans, prog, |outs|);
    PrefixOf(start.ops, code.ops, later.ops);
  }

  method EmitOneLog(ghost start: Code, code: Code, prog: seq<Rule>, outs: seq<nat>) returns (later: Code, outs': seq<nat>)
    requires Logging(start, code, prog, outs) && |outs| < |prog| && FansMean(start.ops, start.fans, prog)
    ensures Logging(start, later, prog, outs') && |outs'| == |outs| + 1
  {
    LoggingFan(start, code, prog, outs);
    var fan := code.fans[prog[|outs|].name].op;
    LoggingNext(start, code, prog, outs, fan);
    return EmitLog(code, fan), outs + [|code.ops| + 2];
  }

  /** One logger after the other; the order in which Go's map iteration visits the rules does not matter to reduce. */
  method EmitLogs(start: Code, prog: seq<Rule>) returns (code: Code, outs: seq<nat>)
    requires Logging(start, start, prog, []) && FansMean(start.ops, start.fans, prog)
    ensures Logging(start, code, prog, outs) && |outs| == |prog|
  {
    code, outs := start, [];
    for k := 0 to |prog|
      invariant |outs| == k && Logging(start, code, prog, outs)
    {
      code, outs := EmitOneLog(start, code, prog, outs);
    }
  }

  // ---- The network ---------------------------------------------------------------------------------------------

  ghost function NetOf(ops: seq<Op>): Net {
    Net(ops, ReadersOf(ops))
  }

  /** reduce over all loggers, then log_fdr. */
  function EmitReduce(code: Code, outs: seq<nat>): Code {
    Emit(Emit(code, Reduce, Channels(outs), 1, 1), Un(Log), [Chan(|code.ops|, 0)], 1, 1)
  }

  lemma {:induction false} ReducePlain(code: Code, outs: seq<nat>)
    requires Plain(code, Elems(outs)) && forall j, k :: 0 <= j < k < |outs| ==> outs[j] < outs[k]
    ensures Plain(EmitReduce(code, outs), {|code.ops| + 1})
    ensures Alike(code.ops, EmitReduce(code, outs).ops)
  {
    hide Plain, FanOps, ShortArgvs;
    var red := Emit(code, Reduce, Channels(outs), 1, 1);
    ChannelSources(outs);
    assert {} + Elems(outs) == Elems(outs);
    EmitPlain(code, Reduce, Channels(outs), Elems(outs));
    assert Elems(outs) - Sources(Channels(outs)) + {|code.ops|} == {} + {|code.ops|};
    OnePlain(red, Un(Log), {}, |code.ops|);
    assert {} + {|code.ops| + 1} == {|code.ops| + 1};
  }

  lemma {:induction false} ReduceReads(code: Code, outs: seq<nat>, c: Chan)
    requires Read(code.ops, c) && forall j, k :: 0 <= j < k < |outs| ==> outs[j] < outs[k]
    ensures Read(EmitReduce(code, outs).ops, c)
  {
    var red := Emit(code, Reduce, Channels(outs), 1, 1);
    ChannelSources(outs);
    ReadSnoc(code.ops, Op(Reduce, Channels(outs), 1));
    ReadSnoc(red.ops, Op(Un(Log), [Chan(|code.ops|, 0)], 1));
  }

  lemma {:induction false} LogValues(ops: seq<Op>, outs: seq<nat>, prog: seq<Rule>, w: World, n: nat)
    requires LogOuts(ops, outs, prog) && |outs| == |prog|
    ensures Gather(EvalAll(w, n, ops), Channels(outs)) == Records(w, n, prog)
  {
    var vals := Gather(EvalAll(w, n, ops), Channels(outs));
    forall k | 0 <= k < |prog| ensures vals[k] == Lookup(EvalRules(w, n, prog), prog[k].name) {
      assert FanMeans(ops, outs[k], prog, prog[k].name);
    }
  }

  lemma {:induction false} ReduceValue(ops: seq<Op>, outs: seq<nat>, prog: seq<Rule>, w: World, n: nat)
    requires Gather(EvalAll(w, n, ops), Channels(outs)) == Records(w, n, prog)
    ensures EvalAll(w, n, ops + [Op(Reduce, Channels(outs), 1)])[|ops|] == Fdr(w, n, prog)
  {
    EvalSnoc(w, n, ops, Op(Reduce, Channels(outs), 1));
  }

  lemma {:induction false} LogValue(ops: seq<Op>, i: nat, w: World, n: nat)
    requires i < |ops|
    ensures EvalAll(w, n, ops + [Op(Un(Log), [Chan(i, 0)], 1)])[|ops|] == EvalAll(w, n, ops)[i]
  {
    EvalSnoc(w, n, ops, Op(Un(Log), [Chan(i, 0)], 1));
    assert Gather(EvalAll(w, n, ops), [Chan(i, 0)])[0] == EvalAll(w, n, ops)[i];
  }

  lemma {:induction false} ReduceMeans(code: Code, outs: seq<nat>, prog: seq<Rule>)
    requires LogOuts(code.ops, outs, prog) && |outs| == |prog|
    ensures forall w: World, n: nat :: EvalAll(w, n, EmitReduce(code, outs).ops)[|code.ops| + 1] == Fdr(w, n, prog)
  {
    forall w: World, n: nat
      ensures EvalAll(w, n, EmitReduce(code, outs).ops)[|code.ops| + 1] == Fdr(w, n, prog)
    {
      LogValues(code.ops, outs, prog, w, n);
      ReduceValue(code.ops, outs, prog, w, n);
      LogValue(code.ops + [Op(Reduce, Channels(outs), 1)], |code.ops|, w, n);
    }
  }

  lemma {:induction false} FanOutletRead(start: Code, code: Code, prog: seq<Rule>, outs: seq<nat>, c: Chan)
    requires Logging(start, code, prog, outs) && |outs| == |prog|
    requires Owned(start) && FansMean(start.ops, start.fans, prog)
    requires c.src in FanOps(code.ops) && c.src < |code.ops| && c.k < code.ops[c.src].width
    ensures Read(code.ops, c)
  {
    var name :| name in start.fans && start.fans[name].op == c.src;
    assert Named(prog, name);
    var j :| 0 <= j < |prog| && prog[j].name == name;
    assert SlotLogged(code.ops, code.fans[name], true);
  }

  lemma {:induction false} FanOpsInside(ops: seq<Op>, i: nat)
    requires i in FanOps(ops)
    ensures i < |ops| && ops[i].kind.Fanout?
  {
    if i != |ops| - 1 || !ops[|ops| - 1].kind.Fanout? {
      FanOpsInside(ops[..|ops| - 1], i);
    }
  }

  lemma {:induction false} PlainOutlet(ops: seq<Op>, c: Chan)
    requires Wired(ops) && IsOutlet(ops, c) && !ops[c.src].kind.Fanout?
    ensures c == Chan(c.src, 0)
  {
    WiredMatches(ops);
    assert OpWired(ops, c.src);
  }

  /** An outlet of a fan-out. */
  lemma {:induction false} FanSideRead(start: Code, code: Code, prog: seq<Rule>, outs: seq<nat>, c: Chan)
    requires Logging(start, code, prog, outs) && |outs| == |prog|
    requires Owned(start) && FansMean(start.ops, start.fans, prog)
    requires IsOutlet(EmitReduce(code, outs).ops, c) && c.src in FanOps(code.ops)
    ensures Read(EmitReduce(code, outs).ops, c)
  {
    hide Owned, FansMean, Plain, SlotsLogged, ShortArgvs, Read;
    var last := EmitReduce(code, outs);
    FanOpsInside(code.ops, c.src);
    assert last.ops[c.src] == code.ops[c.src];
    FanOutletRead(start, code, prog, outs, c);
    ReduceReads(code, outs, c);
  }

  lemma {:induction false} PlainSideRead(last: Code, open: set<nat>, c: Chan)
    requires Plain(last, open) && IsOutlet(last.ops, c) && !last.ops[c.src].kind.Fanout? && c.src !in open
    ensures Read(last.ops, c)
  {
    PlainOutlet(last.ops, c);
  }

  /** Every outlet but the last op's has a reader. */
  lemma {:induction false} AllOutletsRead(start: Code, code: Code, prog: seq<Rule>, outs: seq<nat>, c: Chan)
    requires Logging(start, code, prog, outs) && |outs| == |prog|
    requires Owned(start) && FansMean(start.ops, start.fans, prog)
    requires IsOutlet(EmitReduce(code, outs).ops, c) && c.src < |code.ops| + 1
    ensures Read(EmitReduce(code, outs).ops, c)
  {
    hide Owned, FansMean, Plain, SlotsLogged, Read;
    var last := EmitReduce(code, outs);
    ReducePlain(code, outs);
    if last.ops[c.src].kind.Fanout? {
      FanOpsAt(last.ops, c.src);
      FanSideRead(start, code, prog, outs, c);
    } else {
      PlainSideRead(last, {|code.ops| + 1}, c);
    }
  }

  lemma {:induction false} NetWellFormed(start: Code, code: Code, prog: seq<Rule>, outs: seq<nat>)
    requires Logging(start, code, prog, outs) && |outs| == |prog|
    requires Owned(start) && FansMean(start.ops, start.fans, prog)
    ensures WellFormed(NetOf(EmitReduce(code, outs).ops))
    ensures EmitReduce(code, outs).confluent == GatedCount(EmitReduce(code, outs).ops)
  {
    var ops := EmitReduce(code, outs).ops;
    ReducePlain(code, outs);
    WiredMatches(ops);
    forall c | IsOutlet(ops, c) && c.src < |ops| - 1 ensures c in ReadersOf(ops) {
      AllOutletsRead(start, code, prog, outs, c);
      assert Read(ops, c);
    }
  }

  datatype Compilation = Compilation(ops: seq<Op>, fans: map<string, Fan>, confluentCount: nat)

  /**
    The network is well formed, its count is the number of ops that call get(), the
    argv, when and fire ops of every rule compute that rule, the last op computes the
    flow detail record, and some argv cannot count its inputs exactly when some rule
    has more than 255 arguments.
   */
  ghost predicate Correct(c: Compilation, prog: seq<Rule>) {
    && WellFormed(NetOf(c.ops))
    && c.confluentCount == GatedCount(c.ops)
    && AllWired(c.ops, c.fans, prog)
    && (AllCountable(NetOf(c.ops)) <==> ArgsCountable(prog))
    && (forall w: World, n: nat :: EvalAll(w, n, c.ops)[|c.ops| - 1] == Fdr(w, n, prog))
  }

  lemma {:induction false} RulesStillWired(start: Code, last: Code, prog: seq<Rule>)
    requires AllWired(start.ops, start.fans, prog) && Prefix(start.ops, last.ops) && last.fans == start.fans
    ensures AllWired(last.ops, last.fans, prog)
  {
    forall k | 0 <= k < |prog|
      ensures prog[k].name in last.fans && RuleWired(last.ops, last.fans[prog[k].name].op, prog[k], prog[..k])
    {
      RuleWiredLater(start.ops, last.ops, start.fans[prog[k].name].op, prog[k], prog[..k]);
    }
  }

  lemma {:induction false} NetCorrect(start: Code, code: Code, prog: seq<Rule>, outs: seq<nat>)
    requires Prefix(start.ops, code.ops) && code.fans == start.fans
    requires AllWired(start.ops, start.fans, prog) && LogOuts(code.ops, outs, prog) && |outs| == |prog|
    requires var last := EmitReduce(code, outs); WellFormed(NetOf(last.ops)) && last.confluent == GatedCount(last.ops)
    requires ShortArgvs(EmitReduce(code, outs).ops) <==> ArgsCountable(prog)
    ensures var last := EmitReduce(code, outs); Correct(Compilation(last.ops, last.fans, last.confluent), prog)
  {
    var last := EmitReduce(code, outs);
    PrefixOf(start.ops, code.ops, last.ops);
    RulesStillWired(start, last, prog);
    ReduceMeans(code, outs, prog);
    ShortArgvsAre(last.ops);
    CorrectParts(Compilation(last.ops, last.fans, last.confluent), prog, |code.ops| + 1);
  }

  lemma {:induction false} CorrectParts(c: Compilation, prog: seq<Rule>, i: nat)
    requires |c.ops| == i + 1 && WellFormed(NetOf(c.ops)) && c.confluentCount == GatedCount(c.ops)
    requires AllWired(c.ops, c.fans, prog) && (AllCountable(NetOf(c.ops)) <==> ArgsCountable(prog))
    requires forall w: World, n: nat :: EvalAll(w, n, c.ops)[i] == Fdr(w, n, prog)
    ensures Correct(c, prog)
  {
  }

  /**
    compile(): succeeds exactly on a program in dependency order whose fan-outs fit
    the eight-bit counter, and then returns a correct network.  The check that every
    outlet of a fan-out was given away can never fail.
   */
  method CompileAll(prog: seq<Rule>) returns (r: Option<Compilation>)
    requires Parsed(prog)
    ensures r.Some? <==> Compilable(prog)
    ensures r.Some? ==> Correct(r.value, prog)
  {
    var ok, start := CompileRulesInOrder(prog);
    if !ok {
      return None;
    }
    assert prog[..|prog|] == prog;
    LoggingStart(start, prog);
    var code, outs := EmitLogs(start, prog);
    NetWellFormed(start, code, prog, outs);
    ReducePlain(code, outs);
    NetCorrect(start, code, prog, outs);
    var last := EmitReduce(code, outs);
    return Some(Compilation(last.ops, last.fans, last.confluent));
  }
}
