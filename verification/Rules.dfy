/** Rules of a flow file (flowd/parser.go) and their meaning (flowd/README). */
module Rules {
  // A call or query fires when its arguments exist and its when clause is true, and clauses refer to the
  // records of other rules.

  import opened Text
  import opened Rummy
  import opened FlowOps

  datatype Expr =
    | Lit(v: Val)                                   // UINT64, STRING, true, false
    | Brr(field: nat)                               // PROJECT_BRR
    | Ref(name: string, proj: UnOp)                 // PROJECT_XDR_*, PROJECT_QDR_*, PROJECT_SQL_QUERY_ROW_BOOL
    | Unary(f: UnOp, arg: Expr)                     // casts, comparisons, sync map lookups
    | Binary(op: BinOp, left: Expr, right: Expr)    // and, or

  /** A call or a query; `builtin` marks a call of the command "true" (CALLX0). */
  datatype Rule = Rule(name: string, builtin: bool, args: seq<Expr>, when: Expr)

  // ---- Meaning -------------------------------------------------------------------------------

  type Env = map<string, Val>

  function Lookup(env: Env, name: string): Val {
    if name in env then env[name] else RecV(true, None)
  }

  function EvalExpr(w: World, n: nat, env: Env, e: Expr): Val {
    match e
    case Lit(v) => v
    case Brr(field) => StrV(false, w.brr(n, field))
    case Ref(name, proj) => UnSpec(w, n, proj, Lookup(env, name))
    case Unary(f, arg) => UnSpec(w, n, f, EvalExpr(w, n, env, arg))
    case Binary(op, l, r) => OfTri(Sql(op, TriOf(EvalExpr(w, n, env, l)), TriOf(EvalExpr(w, n, env, r))))
  }

  function EvalEach(w: World, n: nat, env: Env, args: seq<Expr>): seq<Val> {
    seq(|args|, i requires 0 <= i < |args| => EvalExpr(w, n, env, args[i]))
  }

  function EvalArgs(w: World, n: nat, env: Env, args: seq<Expr>): Val {
    ArgvSpec(EvalEach(w, n, env, args))
  }

  function EvalRule(w: World, n: nat, env: Env, r: Rule): Val {
    FireSpec(w, n, r.name, r.builtin, EvalArgs(w, n, env, r.args), EvalExpr(w, n, env, r.when))
  }

  /** The record of every rule in flow `n`; each rule sees the records of the rules before it. */
  function EvalRules(w: World, n: nat, prog: seq<Rule>): Env {
    if prog == [] then map[]
    else
      var env := EvalRules(w, n, prog[..|prog| - 1]);
      var r := prog[|prog| - 1];
      env[r.name := EvalRule(w, n, env, r)]
  }

  // ---- References ----------------------------------------------------------------------------

  /** How often an expression projects the record of a rule. */
  function Refs(e: Expr, name: string): nat {
    match e
    case Lit(_) => 0
    case Brr(_) => 0
    case Ref(n, _) => if n == name then 1 else 0
    case Unary(_, arg) => Refs(arg, name)
    case Binary(_, l, r) => Refs(l, name) + Refs(r, name)
  }

  function ArgRefs(args: seq<Expr>, name: string): nat {
    if args == [] then 0 else ArgRefs(args[..|args| - 1], name) + Refs(args[|args| - 1], name)
  }

  function RuleRefs(r: Rule, name: string): nat {
    ArgRefs(r.args, name) + Refs(r.when, name)
  }

  /** depend_ref_count of a rule after the whole file is parsed. */
  function RefCount(prog: seq<Rule>, name: string): nat {
    if prog == [] then 0 else RefCount(prog[..|prog| - 1], name) + RuleRefs(prog[|prog| - 1], name)
  }

  ghost predicate Named(prog: seq<Rule>, name: string) {
    exists k :: 0 <= k < |prog| && prog[k].name == name
  }

  ghost predicate DistinctNames(prog: seq<Rule>) {
    forall j, k :: 0 <= j < k < |prog| ==> prog[j].name != prog[k].name
  }

  /** Every rule refers only to rules before it. */
  ghost predicate InOrder(prog: seq<Rule>) {
    forall k, name :: 0 <= k < |prog| && 0 < RuleRefs(prog[k], name) ==> Named(prog[..k], name)
  }

  lemma {:induction false} RefCountPrefix(prog: seq<Rule>, k: nat, name: string)
    requires k <= |prog|
    ensures RefCount(prog[..k], name) <= RefCount(prog, name)
    ensures k < |prog| ==> RefCount(prog[..k], name) + RuleRefs(prog[k], name) <= RefCount(prog, name)
  {
    if k == |prog| {
      assert prog[..k] == prog;
    } else {
      var rest := prog[..|prog| - 1];
      RefCountPrefix(rest, k, name);
      assert rest[..k] == prog[..k];
      if k == |rest| {
        assert prog[..k] == rest;
      }
    }
  }

  // ---- The order of the rules does not matter ---------------------------------------------------

  lemma {:induction false} EnvKeys(w: World, n: nat, prog: seq<Rule>, name: string)
    ensures name in EvalRules(w, n, prog) <==> Named(prog, name)
  {
    if prog != [] {
      var rest := prog[..|prog| - 1];
      EnvKeys(w, n, rest, name);
      if Named(rest, name) {
        var k :| 0 <= k < |rest| && rest[k].name == name;
        assert prog[k].name == name;
      }
      if prog[|prog| - 1].name == name {
        assert Named(prog, name);
      }
    }
  }

  /** Two environments that agree on what an expression refers to give it the same value. */
  lemma {:induction false} EvalAgrees(w: World, n: nat, a: Env, b: Env, e: Expr)
    requires forall name :: 0 < Refs(e, name) ==> name in a && name in b && a[name] == b[name]
    ensures EvalExpr(w, n, a, e) == EvalExpr(w, n, b, e)
  {
    match e
    case Lit(_) =>
    case Brr(_) =>
    case Ref(name, _) =>
      assert 0 < Refs(e, name);
    case Unary(_, arg) =>
      forall name | 0 < Refs(arg, name) ensures name in a && name in b && a[name] == b[name] {
        assert 0 < Refs(e, name);
      }
      EvalAgrees(w, n, a, b, arg);
    case Binary(_, l, r) =>
      forall name | 0 < Refs(l, name) || 0 < Refs(r, name) ensures name in a && name in b && a[name] == b[name] {
        assert 0 < Refs(e, name);
      }
      EvalAgrees(w, n, a, b, l);
      EvalAgrees(w, n, a, b, r);
  }

  lemma {:induction false} ArgRefsAt(args: seq<Expr>, i: nat, name: string)
    requires i < |args|
    ensures Refs(args[i], name) <= ArgRefs(args, name)
  {
    if i < |args| - 1 {
      ArgRefsAt(args[..|args| - 1], i, name);
    }
  }

  lemma {:induction false} RuleAgrees(w: World, n: nat, a: Env, b: Env, r: Rule)
    requires forall name :: 0 < RuleRefs(r, name) ==> name in a && name in b && a[name] == b[name]
    ensures EvalArgs(w, n, a, r.args) == EvalArgs(w, n, b, r.args)
    ensures EvalExpr(w, n, a, r.when) == EvalExpr(w, n, b, r.when)
    ensures EvalRule(w, n, a, r) == EvalRule(w, n, b, r)
  {
    forall i | 0 <= i < |r.args| ensures EvalExpr(w, n, a, r.args[i]) == EvalExpr(w, n, b, r.args[i]) {
      forall name | 0 < Refs(r.args[i], name) ensures name in a && name in b && a[name] == b[name] {
        ArgRefsAt(r.args, i, name);
        assert 0 < RuleRefs(r, name);
      }
      EvalAgrees(w, n, a, b, r.args[i]);
    }
    assert EvalEach(w, n, a, r.args) == EvalEach(w, n, b, r.args);
    forall name | 0 < Refs(r.when, name) ensures name in a && name in b && a[name] == b[name] {
      assert 0 < RuleRefs(r, name);
    }
    EvalAgrees(w, n, a, b, r.when);
  }

  /** Every rule of the program has the record its own equation gives it. */
  ghost predicate Solution(w: World, n: nat, prog: seq<Rule>, env: Env) {
    forall k :: 0 <= k < |prog| ==> prog[k].name in env && env[prog[k].name] == EvalRule(w, n, env, prog[k])
  }

  lemma {:induction false} EvalRulesExtends(w: World, n: nat, prog: seq<Rule>, k: nat, name: string)
    requires DistinctNames(prog) && k <= |prog| && Named(prog[..k], name)
    ensures name in EvalRules(w, n, prog[..k]) && name in EvalRules(w, n, prog)
    ensures EvalRules(w, n, prog)[name] == EvalRules(w, n, prog[..k])[name]
  {
    EnvKeys(w, n, prog[..k], name);
    if k == |prog| {
      assert prog[..k] == prog;
    } else {
      var rest := prog[..|prog| - 1];
      assert rest[..k] == prog[..k];
      EvalRulesExtends(w, n, rest, k, name);
      var j :| 0 <= j < k && prog[..k][j].name == name;
      assert prog[j].name == name && prog[|prog| - 1].name != name;
    }
  }

  /** EvalRules solves the rules' equations. */
  lemma {:induction false} EvalRulesSolves(w: World, n: nat, prog: seq<Rule>)
    requires DistinctNames(prog) && InOrder(prog)
    ensures Solution(w, n, prog, EvalRules(w, n, prog))
  {
    var env := EvalRules(w, n, prog);
    forall k | 0 <= k < |prog|
      ensures prog[k].name in env && env[prog[k].name] == EvalRule(w, n, env, prog[k])
    {
      var r, upto, before := prog[k], prog[..k + 1], EvalRules(w, n, prog[..k]);
      assert upto[k].name == r.name && upto[..k] == prog[..k];
      EvalRulesExtends(w, n, prog, k + 1, r.name);
      forall name | 0 < RuleRefs(r, name) ensures name in before && name in env && before[name] == env[name] {
        EvalRulesExtends(w, n, prog, k, name);
      }
      RuleAgrees(w, n, before, env, r);
    }
  }

  /** The equations have no other solution, whatever order solves them. */
  lemma {:induction false} SolutionUnique(w: World, n: nat, prog: seq<Rule>, a: Env, b: Env, k: nat)
    requires InOrder(prog) && k < |prog|
    requires Solution(w, n, prog, a) && Solution(w, n, prog, b)
    ensures a[prog[k].name] == b[prog[k].name]
    decreases k
  {
    forall name | 0 < RuleRefs(prog[k], name) ensures name in a && name in b && a[name] == b[name] {
      assert Named(prog[..k], name);
      var j :| 0 <= j < k && prog[..k][j].name == name;
      assert prog[j].name == name;
      SolutionUnique(w, n, prog, a, b, j);
    }
    RuleAgrees(w, n, a, b, prog[k]);
  }

  /** Any two dependency orders of the same rules give every rule the same record. */
  lemma {:induction false} OrderIrrelevant(w: World, n: nat, p: seq<Rule>, q: seq<Rule>, k: nat)
    requires DistinctNames(p) && InOrder(p) && DistinctNames(q) && InOrder(q)
    requires forall r :: r in p <==> r in q
    requires k < |p|
    ensures p[k].name in EvalRules(w, n, p) && p[k].name in EvalRules(w, n, q)
    ensures EvalRules(w, n, p)[p[k].name] == EvalRules(w, n, q)[p[k].name]
  {
    EvalRulesSolves(w, n, p);
    EvalRulesSolves(w, n, q);
    var b := EvalRules(w, n, q);
    forall j | 0 <= j < |p| ensures p[j].name in b && b[p[j].name] == EvalRule(w, n, b, p[j]) {
      assert p[j] in q;
    }
    SolutionUnique(w, n, p, EvalRules(w, n, p), b, k);
  }

  // ---- The flow detail record -----------------------------------------------------------------------

  function Records(w: World, n: nat, prog: seq<Rule>): seq<Val> {
    seq(|prog|, k requires 0 <= k < |prog| => Lookup(EvalRules(w, n, prog), prog[k].name))
  }

  /** How many rules fired with and without success, in counters of eight bits. */
  function Fdr(w: World, n: nat, prog: seq<Rule>): Val {
    FdrV(Count(Records(w, n, prog), FiredOk) % COUNTER, Count(Records(w, n, prog), FiredFault) % COUNTER)
  }

  /** A rule sees the same records in the whole program as in the part before it. */
  lemma {:induction false} RuleInProgram(w: World, n: nat, prog: seq<Rule>, k: nat)
    requires DistinctNames(prog) && InOrder(prog) && k < |prog|
    ensures EvalArgs(w, n, EvalRules(w, n, prog[..k]), prog[k].args) == EvalArgs(w, n, EvalRules(w, n, prog), prog[k].args)
    ensures EvalExpr(w, n, EvalRules(w, n, prog[..k]), prog[k].when) == EvalExpr(w, n, EvalRules(w, n, prog), prog[k].when)
    ensures EvalRule(w, n, EvalRules(w, n, prog[..k]), prog[k]) == Lookup(EvalRules(w, n, prog), prog[k].name)
  {
    var a, b := EvalRules(w, n, prog[..k]), EvalRules(w, n, prog);
    forall name | 0 < RuleRefs(prog[k], name) ensures name in a && name in b && a[name] == b[name] {
      EvalRulesExtends(w, n, prog, k, name);
    }
    RuleAgrees(w, n, a, b, prog[k]);
    EvalRulesSolves(w, n, prog);
  }

  /**
    What a rule's record says of the values of its arguments and its when clause: it is null exactly when one of
    them is; the rule fired exactly when all arguments are there and the clause is true, and its record is then that
    of the command or query called with the strings, and for the builtin that of an exit with status 0.
   */
  ghost predicate FiredAsAsked(w: World, n: nat, r: Rule, argv: seq<Val>, when: Val, v: Val) {
    var given := forall i :: 0 <= i < |argv| ==> argv[i].StrV? && !argv[i].isNull;
    var strings := seq(|argv|, i requires 0 <= i < |argv| => if argv[i].StrV? then argv[i].s else "");
    var called := if r.builtin then Xdr(true, 0) else w.fire(n, r.name, strings);
    && v.RecV?
    && (v.isNull <==> !given || !when.BoolV? || when.isNull)
    && (v.rec.Some? <==> given && when == BoolV(false, true))
    && (v.rec.Some? ==> v.rec.value == called)
  }

  /** Every rule's record says so of its own arguments and when clause. */
  lemma {:induction false} RecordExactly(w: World, n: nat, prog: seq<Rule>, k: nat)
    requires DistinctNames(prog) && InOrder(prog) && k < |prog|
    ensures prog[k].name in EvalRules(w, n, prog)
    ensures var env, r := EvalRules(w, n, prog), prog[k];
      var argv := seq(|r.args|, i requires 0 <= i < |r.args| => EvalExpr(w, n, env, r.args[i]));
      FiredAsAsked(w, n, r, argv, EvalExpr(w, n, env, r.when), env[r.name])
  {
    EvalRulesSolves(w, n, prog);
    var env, r := EvalRules(w, n, prog), prog[k];
    var argv := seq(|r.args|, i requires 0 <= i < |r.args| => EvalExpr(w, n, env, r.args[i]));
    assert argv == EvalEach(w, n, env, r.args);
    RuleFires(w, n, env, r);
  }

  lemma {:induction false} RuleFires(w: World, n: nat, env: Env, r: Rule)
    ensures FiredAsAsked(w, n, r, EvalEach(w, n, env, r.args), EvalExpr(w, n, env, r.when), EvalRule(w, n, env, r))
  {
    var argv := EvalEach(w, n, env, r.args);
    assert ArgvSpec(argv).argv == seq(|argv|, i requires 0 <= i < |argv| => if argv[i].StrV? then argv[i].s else "");
  }

  /** The rules with a record that says ok. */
  function OkRules(w: World, n: nat, prog: seq<Rule>): set<nat> {
    var env := EvalRules(w, n, prog);
    set j: nat | j < |prog| && prog[j].name in env && var v := env[prog[j].name];
      v.RecV? && !v.isNull && v.rec.Some? && v.rec.value.ok
  }

  /** The rules with a record that does not. */
  function FaultRules(w: World, n: nat, prog: seq<Rule>): set<nat> {
    var env := EvalRules(w, n, prog);
    set j: nat | j < |prog| && prog[j].name in env && var v := env[prog[j].name];
      v.RecV? && !v.isNull && v.rec.Some? && !v.rec.value.ok
  }

  /** The flow detail record has the number of each, in eight bits. */
  lemma {:induction false} FdrIs(w: World, n: nat, prog: seq<Rule>)
    ensures Fdr(w, n, prog) == FdrV(|OkRules(w, n, prog)| % 256, |FaultRules(w, n, prog)| % 256)
  {
    var vals := Records(w, n, prog);
    CountIsPlaces(vals, FiredOk);
    CountIsPlaces(vals, FiredFault);
    forall j: nat | j < |prog| ensures prog[j].name in EvalRules(w, n, prog) {
      EnvKeys(w, n, prog, prog[j].name);
    }
    assert Places(vals, FiredOk) == OkRules(w, n, prog);
    assert Places(vals, FiredFault) == FaultRules(w, n, prog);
  }
}
