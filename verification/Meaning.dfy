/** What the rules of a flow file mean, without goroutines, nulls or channels (flowd/README). */
module Meaning {
  // Strings, numbers and truth values that may be missing, in the logic of SQL; a rule did nothing for lack of
  // a value, was skipped by its when clause, or fired.

  import opened Text
  import opened Rummy
  import opened FlowOps
  import opened Rules

  datatype Outcome = Lacking | Skipped | Fired(rec: Record)

  type Outcomes = map<string, Outcome>

  function OutcomeOf(outs: Outcomes, name: string): Outcome {
    if name in outs then outs[name] else Lacking
  }

  // ---- Types ---------------------------------------------------------------------------------------

  datatype Type = Truth | Text | Number

  /** What the grammar lets stand where. */
  predicate HasType(e: Expr, t: Type) {
    match e
    case Lit(v) =>
      (match t case Truth => v.BoolV? && !v.isNull case Text => v.StrV? && !v.isNull case Number => v.UIntV? && !v.isNull)
    case Brr(_) => t == Text
    case Ref(_, proj) =>
      (match proj
       case ExitStatus => t == Number
       case RowsAffected => t == Number
       case RowBool(_) => t == Truth
       case Sqlstate => t == Text
       case _ => false)
    case Unary(f, arg) =>
      (match f
       case CastString => t == Text && HasType(arg, Number)
       case EqUInt(_) => t == Truth && HasType(arg, Number)
       case NeqUInt(_) => t == Truth && HasType(arg, Number)
       case EqBool(_) => t == Truth && HasType(arg, Truth)
       case NeqBool(_) => t == Truth && HasType(arg, Truth)
       case EqString(_) => t == Truth && HasType(arg, Text)
       case NeqString(_) => t == Truth && HasType(arg, Text)
       case Match(_) => t == Truth && HasType(arg, Text)
       case NoMatch(_) => t == Truth && HasType(arg, Text)
       case SyncMapLoaded(_) => t == Truth && HasType(arg, Text)
       case _ => false)
    case Binary(_, l, r) => t == Truth && HasType(l, Truth) && HasType(r, Truth)
  }

  predicate TypedRule(r: Rule) {
    (forall i :: 0 <= i < |r.args| ==> HasType(r.args[i], Text)) && HasType(r.when, Truth)
  }

  predicate Typed(prog: seq<Rule>) {
    forall k :: 0 <= k < |prog| ==> TypedRule(prog[k])
  }

  // ---- Meanings ------------------------------------------------------------------------------------

  /** False decides a conjunction, and then a missing operand makes it missing. */
  function Both(a: Option<bool>, b: Option<bool>): Option<bool> {
    if a == Some(false) || b == Some(false) then Some(false) else if a.None? || b.None? then None else Some(true)
  }

  function Negated(a: Option<bool>): Option<bool> {
    match a case None => None case Some(x) => Some(!x)
  }

  function Either(a: Option<bool>, b: Option<bool>): Option<bool> {
    Negated(Both(Negated(a), Negated(b)))
  }

  /** The number an expression stands for. */
  function NumberOf(outs: Outcomes, e: Expr): Option<nat> {
    match e
    case Lit(UIntV(_, u)) => Some(u)
    case Ref(name, ExitStatus) =>
      (match OutcomeOf(outs, name) case Fired(Xdr(_, status)) => Some(status) case _ => None)
    case Ref(name, RowsAffected) =>
      (match OutcomeOf(outs, name) case Fired(Qdr(_, rows, _, _)) => Some(rows) case _ => None)
    case _ => None
  }

  /** The string an expression stands for. */
  function TextOf(w: World, n: nat, outs: Outcomes, e: Expr): Option<string> {
    match e
    case Lit(StrV(_, s)) => Some(s)
    case Brr(field) => Some(w.brr(n, field))
    case Ref(name, Sqlstate) =>
      (match OutcomeOf(outs, name) case Fired(Qdr(_, _, state, _)) => Some(state) case _ => None)
    case Unary(CastString, arg) =>
      (match NumberOf(outs, arg) case Some(u) => Some(Decimal(u)) case None => None)
    case _ => None
  }

  /** The truth value an expression stands for. */
  function TruthOf(w: World, n: nat, outs: Outcomes, e: Expr): Option<bool> {
    match e
    case Lit(BoolV(_, b)) => Some(b)
    case Ref(name, RowBool(field)) =>
      (match OutcomeOf(outs, name)
       case Fired(Qdr(_, rows, _, row)) => if 0 < rows && field < |row| then row[field] else None
       case _ => None)
    case Unary(f, arg) =>
      (match f
       case EqUInt(u) => (match NumberOf(outs, arg) case Some(x) => Some(x == u) case None => None)
       case EqBool(b) => (match TruthOf(w, n, outs, arg) case Some(x) => Some(x == b) case None => None)
       case EqString(s) => (match TextOf(w, n, outs, arg) case Some(x) => Some(x == s) case None => None)
       case Match(rex) => (match TextOf(w, n, outs, arg) case Some(x) => Some(w.matches(rex, x)) case None => None)
       case NeqUInt(u) => (match NumberOf(outs, arg) case Some(x) => Some(x != u) case None => None)
       case NeqBool(b) => (match TruthOf(w, n, outs, arg) case Some(x) => Some(x != b) case None => None)
       case NeqString(s) => (match TextOf(w, n, outs, arg) case Some(x) => Some(x != s) case None => None)
       case NoMatch(rex) => (match TextOf(w, n, outs, arg) case Some(x) => Some(!w.matches(rex, x)) case None => None)
       case SyncMapLoaded(site) =>
         (match TextOf(w, n, outs, arg) case Some(x) => Some(w.loaded(n, site, x)) case None => Some(w.loaded(n, site, [])))
       case _ => None)
    case Binary(And, l, r) => Both(TruthOf(w, n, outs, l), TruthOf(w, n, outs, r))
    case Binary(Or, l, r) => Either(TruthOf(w, n, outs, l), TruthOf(w, n, outs, r))
    case _ => None
  }

  /** The strings of a call, if none is missing. */
  function Strings(w: World, n: nat, outs: Outcomes, args: seq<Expr>): Option<seq<string>> {
    if args == [] then Some([])
    else
      match (Strings(w, n, outs, args[..|args| - 1]), TextOf(w, n, outs, args[|args| - 1]))
      case (Some(ss), Some(s)) => Some(ss + [s])
      case _ => None
  }

  /** A rule fires when its strings are there and its when clause is true; a builtin always exits with 0. */
  function RuleOutcome(w: World, n: nat, outs: Outcomes, r: Rule): Outcome {
    match (Strings(w, n, outs, r.args), TruthOf(w, n, outs, r.when))
    case (Some(argv), Some(true)) => Fired(if r.builtin then Xdr(true, 0) else w.fire(n, r.name, argv))
    case (Some(_), Some(false)) => Skipped
    case _ => Lacking
  }

  /** One rule after the other. */
  function FlowOutcomes(w: World, n: nat, prog: seq<Rule>): Outcomes {
    if prog == [] then map[]
    else
      var outs := FlowOutcomes(w, n, prog[..|prog| - 1]);
      outs[prog[|prog| - 1].name := RuleOutcome(w, n, outs, prog[|prog| - 1])]
  }

  // ---- The values on the channels carry the meanings ------------------------------------------------

  function TruthVal(t: Option<bool>): Val {
    match t case None => BoolV(true, false) case Some(b) => BoolV(false, b)
  }

  function TextVal(t: Option<string>): Val {
    match t case None => StrV(true, []) case Some(s) => StrV(false, s)
  }

  function NumberVal(t: Option<nat>): Val {
    match t case None => UIntV(true, 0) case Some(u) => UIntV(false, u)
  }

  function OutcomeVal(o: Outcome): Val {
    match o
    case Lacking => RecV(true, None)
    case Skipped => RecV(false, None)
    case Fired(rec) => RecV(false, Some(rec))
  }

  ghost predicate Carries(env: Env, outs: Outcomes) {
    forall name :: Lookup(env, name) == OutcomeVal(OutcomeOf(outs, name))
  }

  lemma {:induction false} NumberCarried(w: World, n: nat, env: Env, outs: Outcomes, e: Expr)
    requires Carries(env, outs) && HasType(e, Number)
    ensures EvalExpr(w, n, env, e) == NumberVal(NumberOf(outs, e))
  {
    if e.Ref? {
      assert Lookup(env, e.name) == OutcomeVal(OutcomeOf(outs, e.name));
    }
  }

  lemma {:induction false} TextCarried(w: World, n: nat, env: Env, outs: Outcomes, e: Expr)
    requires Carries(env, outs) && HasType(e, Text)
    ensures EvalExpr(w, n, env, e) == TextVal(TextOf(w, n, outs, e))
  {
    if e.Ref? {
      assert Lookup(env, e.name) == OutcomeVal(OutcomeOf(outs, e.name));
    }
    if e.Unary? {
      NumberCarried(w, n, env, outs, e.arg);
    }
  }

  lemma {:induction false} SqlCarried(op: BinOp, a: Option<bool>, b: Option<bool>)
    ensures OfTri(Sql(op, TriOf(TruthVal(a)), TriOf(TruthVal(b)))) == TruthVal(if op == And then Both(a, b) else Either(a, b))
  {
  }

  /** A test of a value that may be missing. */
  lemma {:induction false} UnaryCarried(w: World, n: nat, env: Env, outs: Outcomes, f: UnOp, arg: Expr)
    requires Carries(env, outs) && HasType(Unary(f, arg), Truth)
    requires (f.EqBool? || f.NeqBool?) ==> EvalExpr(w, n, env, arg) == TruthVal(TruthOf(w, n, outs, arg))
    ensures EvalExpr(w, n, env, Unary(f, arg)) == TruthVal(TruthOf(w, n, outs, Unary(f, arg)))
  {
    hide Carries;
    if f.EqUInt? || f.NeqUInt? {
      NumberCarried(w, n, env, outs, arg);
    } else if !f.EqBool? && !f.NeqBool? {
      TextCarried(w, n, env, outs, arg);
    }
  }

  lemma {:induction false} TruthCarried(w: World, n: nat, env: Env, outs: Outcomes, e: Expr)
    requires Carries(env, outs) && HasType(e, Truth)
    ensures EvalExpr(w, n, env, e) == TruthVal(TruthOf(w, n, outs, e))
  {
    match e
    case Lit(_) =>
    case Ref(name, _) => assert Lookup(env, name) == OutcomeVal(OutcomeOf(outs, name));
    case Unary(f, arg) =>
      if f.EqBool? || f.NeqBool? {
        TruthCarried(w, n, env, outs, arg);
      }
      UnaryCarried(w, n, env, outs, f, arg);
    case Binary(op, l, r) =>
      TruthCarried(w, n, env, outs, l);
      TruthCarried(w, n, env, outs, r);
      SqlCarried(op, TruthOf(w, n, outs, l), TruthOf(w, n, outs, r));
  }

  ghost predicate AnyNull(vals: seq<Val>) {
    exists i :: 0 <= i < |vals| && IsNullString(vals[i])
  }

  lemma {:induction false} AnyNullSnoc(vals: seq<Val>, v: Val)
    ensures AnyNull(vals + [v]) <==> AnyNull(vals) || IsNullString(v)
  {
    var more := vals + [v];
    assert more[|vals|] == v;
    assert forall i :: 0 <= i < |vals| ==> more[i] == vals[i];
  }

  function StringsOf(vals: seq<Val>): seq<string> {
    seq(|vals|, i requires 0 <= i < |vals| => StringOf(vals[i]))
  }

  lemma {:induction false} StringsCarried(w: World, n: nat, env: Env, outs: Outcomes, args: seq<Expr>)
    requires Carries(env, outs) && forall i :: 0 <= i < |args| ==> HasType(args[i], Text)
    ensures Strings(w, n, outs, args).None? <==> AnyNull(EvalEach(w, n, env, args))
    ensures Strings(w, n, outs, args).Some? ==> Strings(w, n, outs, args).value == StringsOf(EvalEach(w, n, env, args))
  {
    if args != [] {
      var rest, e := args[..|args| - 1], args[|args| - 1];
      StringsCarried(w, n, env, outs, rest);
      TextCarried(w, n, env, outs, e);
      var less, v := EvalEach(w, n, env, rest), EvalExpr(w, n, env, e);
      assert EvalEach(w, n, env, args) == less + [v];
      AnyNullSnoc(less, v);
      assert StringsOf(less + [v]) == StringsOf(less) + [StringOf(v)];
    }
  }

  lemma {:induction false} RuleCarried(w: World, n: nat, env: Env, outs: Outcomes, r: Rule)
    requires Carries(env, outs) && TypedRule(r)
    ensures EvalRule(w, n, env, r) == OutcomeVal(RuleOutcome(w, n, outs, r))
  {
    StringsCarried(w, n, env, outs, r.args);
    TruthCarried(w, n, env, outs, r.when);
    assert ArgvSpec(EvalEach(w, n, env, r.args)).argv == StringsOf(EvalEach(w, n, env, r.args));
  }

  lemma {:induction false} OneMoreCarried(env: Env, outs: Outcomes, name: string, v: Val, o: Outcome)
    requires Carries(env, outs) && v == OutcomeVal(o)
    ensures Carries(env[name := v], outs[name := o])
  {
    var env', outs' := env[name := v], outs[name := o];
    forall m ensures Lookup(env', m) == OutcomeVal(OutcomeOf(outs', m)) {
      assert Lookup(env, m) == OutcomeVal(OutcomeOf(outs, m));
    }
  }

  /** The records of the recursive evaluation are what the rules mean. */
  lemma {:induction false} ProgramCarried(w: World, n: nat, prog: seq<Rule>)
    requires Typed(prog)
    ensures Carries(EvalRules(w, n, prog), FlowOutcomes(w, n, prog))
    ensures EvalRules(w, n, prog).Keys == FlowOutcomes(w, n, prog).Keys
  {
    if prog != [] {
      var rest, r := prog[..|prog| - 1], prog[|prog| - 1];
      ProgramCarried(w, n, rest);
      var env, outs := EvalRules(w, n, rest), FlowOutcomes(w, n, rest);
      RuleCarried(w, n, env, outs, r);
      OneMoreCarried(env, outs, r.name, EvalRule(w, n, env, r), RuleOutcome(w, n, outs, r));
    }
  }

  // ---- Counting ------------------------------------------------------------------------------------

  predicate FiredWith(o: Outcome, ok: bool) {
    o.Fired? && o.rec.ok == ok
  }

  /** The rules that fired, and ended well or not. */
  function Enders(w: World, n: nat, prog: seq<Rule>, ok: bool): set<nat> {
    set j: nat | j < |prog| && FiredWith(OutcomeOf(FlowOutcomes(w, n, prog), prog[j].name), ok)
  }

  /** The flow detail record counts the rules that fired and ended well, and those that fired and did not, in eight bits. */
  lemma {:induction false} FdrCounts(w: World, n: nat, prog: seq<Rule>)
    requires Typed(prog)
    ensures Fdr(w, n, prog) == FdrV(|Enders(w, n, prog, true)| % 256, |Enders(w, n, prog, false)| % 256)
  {
    ProgramCarried(w, n, prog);
    FdrIs(w, n, prog);
    var env, outs := EvalRules(w, n, prog), FlowOutcomes(w, n, prog);
    forall j: nat | j < |prog|
      ensures Lookup(env, prog[j].name) == OutcomeVal(OutcomeOf(outs, prog[j].name))
    {
    }
    assert OkRules(w, n, prog) == Enders(w, n, prog, true);
    assert FaultRules(w, n, prog) == Enders(w, n, prog, false);
  }
}
