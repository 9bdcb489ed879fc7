/**
  The compiler from expressions to a network of channels (flowd/compile.go).

  `ops` collects the goroutines in the order compile() starts them, `fans` is the
  map from a rule's name to the outlets of its fan-out, and `confluent` is the count
  compile() leaves in the first flow.  `Sound` is what every call keeps: each channel
  has at most one reader, fan-outs give their outlets away in turn, and only the
  outlets in `open` still wait for a reader.
 */
module Compile {
  import opened Text
  import opened Collections
  import opened Rummy
  import opened FlowOps
  import opened Network
  import opened Rules

  /** A rule's fan-out and the next outlet to give to a reference. */
  datatype Fan = Fan(op: nat, next: nat)

  datatype Code = Code(ops: seq<Op>, fans: map<string, Fan>, confluent: nat)

  // ---- Who reads what ------------------------------------------------------------------------------

  ghost function AddReaders(readers: map<Chan, Reader>, i: nat, ins: seq<Chan>): map<Chan, Reader> {
    if ins == [] then readers
    else AddReaders(readers, i, ins[..|ins| - 1])[ins[|ins| - 1] := Reader(i, |ins| - 1)]
  }

  /** The reader of every channel that has one. */
  ghost function ReadersOf(ops: seq<Op>): map<Chan, Reader> {
    if ops == [] then map[] else AddReaders(ReadersOf(ops[..|ops| - 1]), |ops| - 1, ops[|ops| - 1].ins)
  }

  ghost predicate Read(ops: seq<Op>, c: Chan) {
    c in ReadersOf(ops)
  }

  /** The op reads only outlets that nobody reads yet. */
  ghost predicate Joins(ops: seq<Op>, op: Op) {
    && Arity(op.kind, |op.ins|)
    && 1 <= op.width && (!op.kind.Fanout? ==> op.width == 1)
    && Distinct(op.ins)
    && (forall p :: 0 <= p < |op.ins| ==> IsOutlet(ops, op.ins[p]) && !Read(ops, op.ins[p]))
  }

  /** Every op joined the ones before it. */
  ghost predicate Wired(ops: seq<Op>) {
    ops == [] || (Wired(ops[..|ops| - 1]) && Joins(ops[..|ops| - 1], ops[|ops| - 1]))
  }

  lemma {:induction false} AddReadersAt(readers: map<Chan, Reader>, i: nat, ins: seq<Chan>)
    requires Distinct(ins)
    ensures forall c :: c in AddReaders(readers, i, ins) <==> c in readers || c in ins
    ensures forall c :: c in readers && c !in ins ==> AddReaders(readers, i, ins)[c] == readers[c]
    ensures forall p :: 0 <= p < |ins| ==> AddReaders(readers, i, ins)[ins[p]] == Reader(i, p)
  {
    if ins != [] {
      var rest := ins[..|ins| - 1];
      AddReadersAt(readers, i, rest);
      assert ins == rest + [ins[|ins| - 1]];
    }
  }

  lemma {:induction false} ReadSnoc(ops: seq<Op>, op: Op)
    requires Distinct(op.ins)
    ensures forall c :: Read(ops + [op], c) <==> Read(ops, c) || c in op.ins
  {
    assert (ops + [op])[..|ops|] == ops;
    AddReadersAt(ReadersOf(ops), |ops|, op.ins);
  }

  lemma {:induction false} WiredSnoc(ops: seq<Op>, op: Op)
    requires Wired(ops) && Joins(ops, op)
    ensures Wired(ops + [op])
  {
    assert (ops + [op])[..|ops|] == ops;
  }

  /** What the network model asks of the op list. */
  ghost predicate Matched(ops: seq<Op>) {
    (forall i :: 0 <= i < |ops| ==> OpWired(ops, i)) && ReadersMatch(ops, ReadersOf(ops))
  }

  lemma {:induction false} MatchedSnoc(rest: seq<Op>, op: Op)
    requires Joins(rest, op) && Matched(rest)
    ensures Matched(rest + [op])
  {
    hide ReadersMatch, OpWired, IsOutlet, Arity, AddReaders;
    AddReadersAt(ReadersOf(rest), |rest|, op.ins);
    assert (rest + [op])[..|rest|] == rest;
    MatchSnoc(rest, op, ReadersOf(rest), ReadersOf(rest + [op]));
    OpWiredSnoc(rest, op);
  }

  lemma {:induction false} LastJoined(ops: seq<Op>)
    requires Wired(ops) && ops != []
    ensures var rest, op := ops[..|ops| - 1], ops[|ops| - 1];
      Wired(rest) && Joins(rest, op) && rest + [op] == ops
  {
  }

  lemma {:induction false} WiredIsMatched(ops: seq<Op>)
    requires Wired(ops)
    ensures Matched(ops)
    decreases |ops|
  {
    if ops != [] {
      hide Matched, Joins, Wired;
      LastJoined(ops);
      WiredIsMatched(ops[..|ops| - 1]);
      MatchedSnoc(ops[..|ops| - 1], ops[|ops| - 1]);
    }
  }

  /** It follows from how the list was built. */
  lemma {:induction false} WiredMatches(ops: seq<Op>)
    requires Wired(ops)
    ensures forall i :: 0 <= i < |ops| ==> OpWired(ops, i)
    ensures ReadersMatch(ops, ReadersOf(ops))
  {
    WiredIsMatched(ops);
  }

  lemma {:induction false} OpWiredSnoc(rest: seq<Op>, op: Op)
    requires Joins(rest, op) && forall i :: 0 <= i < |rest| ==> OpWired(rest, i)
    ensures forall i :: 0 <= i < |rest + [op]| ==> OpWired(rest + [op], i)
  {
    var ops := rest + [op];
    forall i | 0 <= i < |ops| ensures OpWired(ops, i) {
      if i < |rest| {
        assert OpWired(rest, i);
      }
    }
  }

  lemma {:induction false} MatchSnoc(ops: seq<Op>, op: Op, readers: map<Chan, Reader>, readers': map<Chan, Reader>)
    requires ReadersMatch(ops, readers)
    requires forall p :: 0 <= p < |op.ins| ==> IsOutlet(ops, op.ins[p]) && op.ins[p] !in readers
    requires forall c :: c in readers' <==> c in readers || c in op.ins
    requires forall c :: c in readers && c !in op.ins ==> readers'[c] == readers[c]
    requires forall p :: 0 <= p < |op.ins| ==> readers'[op.ins[p]] == Reader(|ops|, p)
    ensures ReadersMatch(ops + [op], readers')
  {
    var ops' := ops + [op];
    forall i, p | 0 <= i < |ops'| && 0 <= p < |ops'[i].ins|
      ensures ops'[i].ins[p] in readers' && readers'[ops'[i].ins[p]] == Reader(i, p)
    {
      if i < |ops| {
        assert ops[i].ins[p] in readers;
      }
    }
    forall c | c in readers'
      ensures IsOutlet(ops', c) && readers'[c].op < |ops'| && readers'[c].port < |ops'[readers'[c].op].ins|
      ensures ops'[readers'[c].op].ins[readers'[c].port] == c
    {
      if c in op.ins {
        var p :| 0 <= p < |op.ins| && op.ins[p] == c;
      } else {
        assert c in readers;
      }
    }
  }

  lemma {:induction false} WiredWidth(ops: seq<Op>, i: nat)
    requires Wired(ops) && i < |ops|
    ensures IsOutlet(ops, Chan(i, 0))
  {
    if i < |ops| - 1 {
      WiredWidth(ops[..|ops| - 1], i);
    }
  }

  /** A channel has no reader before its op exists. */
  lemma {:induction false} ReadIsOutlet(ops: seq<Op>, c: Chan)
    requires Wired(ops) && Read(ops, c)
    ensures IsOutlet(ops, c)
  {
    var rest, op := ops[..|ops| - 1], ops[|ops| - 1];
    assert rest + [op] == ops;
    ReadSnoc(rest, op);
    if Read(rest, c) {
      ReadIsOutlet(rest, c);
    }
  }

  // ---- The state of a compilation -------------------------------------------------------------------

  /** Of a rule's fan-out exactly the outlets 1 up to `next` have been given away. */
  ghost predicate SlotOk(ops: seq<Op>, fan: Fan) {
    && fan.op < |ops| && ops[fan.op].kind.Fanout? && 1 <= fan.next
    && (forall k: nat :: k < ops[fan.op].width ==> (Read(ops, Chan(fan.op, k)) <==> 1 <= k < fan.next))
  }

  ghost predicate SlotsOk(ops: seq<Op>, fans: map<string, Fan>) {
    && (forall name :: name in fans ==> SlotOk(ops, fans[name]))
    && (forall a, b :: a in fans && b in fans && a != b ==> fans[a].op != fans[b].op)
  }

  /** Of the ops that are not fan-outs exactly `open` still wait for a reader. */
  ghost predicate Dangling(ops: seq<Op>, open: set<nat>) {
    && (forall i :: i in open ==> i < |ops|)
    && (forall i: nat :: i < |ops| && !ops[i].kind.Fanout? ==> (!Read(ops, Chan(i, 0)) <==> i in open))
    && (forall i :: i in open ==> !ops[i].kind.Fanout?)
  }

  ghost function FanOps(ops: seq<Op>): set<nat> {
    if ops == [] then {}
    else FanOps(ops[..|ops| - 1]) + if ops[|ops| - 1].kind.Fanout? then {|ops| - 1} else {}
  }

  /** Every argv op can count its inputs. */
  ghost predicate ShortArgvs(ops: seq<Op>) {
    ops == [] || (ShortArgvs(ops[..|ops| - 1]) && Countable(ops[|ops| - 1].kind, |ops[|ops| - 1].ins|))
  }

  /** The new ops have no fan-out among them and no argv that miscounts. */
  ghost predicate Alike(ops: seq<Op>, later: seq<Op>) {
    FanOps(later) == FanOps(ops) && (ShortArgvs(later) <==> ShortArgvs(ops))
  }

  /** The last op asks for flows and has one outlet. */
  ghost predicate EndsPlain(ops: seq<Op>) {
    ops != [] && Gated(ops[|ops| - 1]) && !ops[|ops| - 1].kind.Fanout?
  }

  lemma {:induction false} ShortArgvsAre(ops: seq<Op>)
    ensures ShortArgvs(ops) <==> forall i :: 0 <= i < |ops| ==> Countable(ops[i].kind, |ops[i].ins|)
  {
    if ops != [] {
      ShortArgvsAre(ops[..|ops| - 1]);
    }
  }

  lemma {:induction false} FanOpsSnoc(ops: seq<Op>, op: Op)
    ensures FanOps(ops + [op]) == FanOps(ops) + if op.kind.Fanout? then {|ops|} else {}
    ensures ShortArgvs(ops + [op]) <==> ShortArgvs(ops) && Countable(op.kind, |op.ins|)
  {
    assert (ops + [op])[..|ops|] == ops;
  }

  lemma {:induction false} FanOpsAt(ops: seq<Op>, i: nat)
    requires i < |ops| && ops[i].kind.Fanout?
    ensures i in FanOps(ops)
  {
    if i < |ops| - 1 {
      FanOpsAt(ops[..|ops| - 1], i);
    }
  }

  ghost predicate Sound(code: Code, open: set<nat>) {
    && Wired(code.ops)
    && SlotsOk(code.ops, code.fans)
    && Dangling(code.ops, open)
    && code.confluent == GatedCount(code.ops)
  }

  /** One more goroutine reading the given channels; `cc` is added to the flow's count. */
  function Emit(code: Code, kind: Kind, ins: seq<Chan>, width: nat, cc: nat): Code {
    code.(ops := code.ops + [Op(kind, ins, width)], confluent := code.confluent + cc)
  }

  lemma {:induction false} GatedSnoc(ops: seq<Op>, op: Op)
    ensures GatedCount(ops + [op]) == GatedCount(ops) + if Gated(op) then 1 else 0
  {
    assert GatedFlags(ops + [op])[..|ops|] == GatedFlags(ops);
  }

  function Sources(ins: seq<Chan>): set<nat> {
    set c | c in ins :: c.src
  }

  /** The channels are the outlets of ops that wait for a reader. */
  ghost predicate Opens(ins: seq<Chan>, open: set<nat>) {
    Distinct(ins) && forall p :: 0 <= p < |ins| ==> ins[p].k == 0 && ins[p].src in open
  }

  lemma {:induction false} OpensJoin(ops: seq<Op>, kind: Kind, ins: seq<Chan>, width: nat, open: set<nat>)
    requires Wired(ops) && Dangling(ops, open) && Opens(ins, open)
    requires Arity(kind, |ins|) && 1 <= width && (!kind.Fanout? ==> width == 1)
    ensures Joins(ops, Op(kind, ins, width))
  {
    forall p | 0 <= p < |ins| ensures IsOutlet(ops, ins[p]) && !Read(ops, ins[p]) {
      WiredWidth(ops, ins[p].src);
      assert ins[p] == Chan(ins[p].src, 0);
    }
  }

  lemma {:induction false} SlotsSnoc(ops: seq<Op>, fans: map<string, Fan>, op: Op, open: set<nat>)
    requires SlotsOk(ops, fans) && Dangling(ops, open) && Opens(op.ins, open)
    ensures SlotsOk(ops + [op], fans)
  {
    ReadSnoc(ops, op);
    forall name | name in fans ensures SlotOk(ops + [op], fans[name]) {
      assert SlotOk(ops, fans[name]);
      forall k: nat | k < ops[fans[name].op].width ensures Chan(fans[name].op, k) !in op.ins {
      }
    }
  }

  lemma {:induction false} DanglingSnoc(ops: seq<Op>, op: Op, open: set<nat>)
    requires Wired(ops) && Dangling(ops, open) && Opens(op.ins, open)
    ensures Dangling(ops + [op], open - Sources(op.ins) + if op.kind.Fanout? then {} else {|ops|})
  {
    hide Wired, ReadersOf;
    ReadSnoc(ops, op);
    if Read(ops, Chan(|ops|, 0)) {
      ReadIsOutlet(ops, Chan(|ops|, 0));
    }
    forall i: nat | i < |ops| ensures Chan(i, 0) in op.ins <==> i in Sources(op.ins) {
    }
  }

  /** An op that reads waiting outlets and is not a fan-out leaves its own outlet to wait. */
  lemma {:induction false} EmitSound(code: Code, kind: Kind, ins: seq<Chan>, open: set<nat>)
    requires Sound(code, open) && Opens(ins, open) && Arity(kind, |ins|) && !kind.Fanout?
    ensures Sound(Emit(code, kind, ins, 1, if kind.Relay? then 0 else 1), open - Sources(ins) + {|code.ops|})
  {
    hide Wired, SlotsOk, Dangling, Joins, GatedCount;
    var op := Op(kind, ins, 1);
    OpensJoin(code.ops, kind, ins, 1, open);
    WiredSnoc(code.ops, op);
    SlotsSnoc(code.ops, code.fans, op, open);
    DanglingSnoc(code.ops, op, open);
    GatedSnoc(code.ops, op);
  }

  /** A reference reads the next outlet of the rule's fan-out. */
  function EmitRef(code: Code, name: string, proj: UnOp): Code
    requires name in code.fans
  {
    var fan := code.fans[name];
    Emit(code, Un(proj), [Chan(fan.op, fan.next)], 1, 1).(fans := code.fans[name := Fan(fan.op, fan.next + 1)])
  }

  lemma {:induction false} RefSlots(ops: seq<Op>, fans: map<string, Fan>, name: string, op: Op)
    requires SlotsOk(ops, fans) && name in fans && op.ins == [Chan(fans[name].op, fans[name].next)]
    ensures SlotsOk(ops + [op], fans[name := Fan(fans[name].op, fans[name].next + 1)])
  {
    var fans' := fans[name := Fan(fans[name].op, fans[name].next + 1)];
    ReadSnoc(ops, op);
    forall m | m in fans' ensures SlotOk(ops + [op], fans'[m]) {
      assert SlotOk(ops, fans[m]);
      forall k: nat | k < ops[fans[m].op].width
        ensures Chan(fans[m].op, k) in op.ins <==> m == name && k == fans[name].next
      {
        assert op.ins[0] in op.ins;
      }
    }
  }

  lemma {:induction false} RefDangling(ops: seq<Op>, op: Op, open: set<nat>)
    requires Wired(ops) && Dangling(ops, open) && !op.kind.Fanout? && |op.ins| == 1
    requires op.ins[0].src < |ops| && ops[op.ins[0].src].kind.Fanout?
    ensures Dangling(ops + [op], open + {|ops|})
  {
    ReadSnoc(ops, op);
    if Read(ops, Chan(|ops|, 0)) {
      ReadIsOutlet(ops, Chan(|ops|, 0));
    }
  }

  lemma {:induction false} RefJoins(ops: seq<Op>, fan: Fan, proj: UnOp)
    requires SlotOk(ops, fan) && fan.next < ops[fan.op].width
    ensures Joins(ops, Op(Un(proj), [Chan(fan.op, fan.next)], 1))
  {
    assert !Read(ops, Chan(fan.op, fan.next));
  }

  lemma {:induction false} RefSound(code: Code, name: string, proj: UnOp, open: set<nat>)
    requires Sound(code, open) && name in code.fans && code.fans[name].next < code.ops[code.fans[name].op].width
    ensures Sound(EmitRef(code, name, proj), open + {|code.ops|})
  {
    hide Wired, Joins, Dangling, GatedCount, ReadersOf;
    var op := Op(Un(proj), [Chan(code.fans[name].op, code.fans[name].next)], 1);
    assert SlotOk(code.ops, code.fans[name]);
    RefJoins(code.ops, code.fans[name], proj);
    WiredSnoc(code.ops, op);
    RefSlots(code.ops, code.fans, name, op);
    RefDangling(code.ops, op, open);
    GatedSnoc(code.ops, op);
  }

  // ---- What compiled ops compute ------------------------------------------------------------------

  /** A new op's value, and the others' unchanged. */
  lemma {:induction false} EvalSnoc(w: World, n: nat, ops: seq<Op>, op: Op)
    ensures EvalAll(w, n, ops + [op]) == EvalAll(w, n, ops) + [OpSpec(w, n, op.kind, Gather(EvalAll(w, n, ops), op.ins))]
  {
    assert (ops + [op])[..|ops|] == ops;
  }

  ghost predicate Prefix(ops: seq<Op>, later: seq<Op>) {
    |ops| <= |later| && later[..|ops|] == ops
  }

  lemma {:induction false} SameValue(w: World, n: nat, ops: seq<Op>, later: seq<Op>, i: nat)
    requires Prefix(ops, later) && i < |ops|
    ensures EvalAll(w, n, later)[i] == EvalAll(w, n, ops)[i]
  {
    EvalPrefix(w, n, later, |ops|);
    assert EvalAll(w, n, later)[i] == EvalAll(w, n, later)[..|ops|][i];
  }

  /** Op `i` computes the expression, whatever the flow and the outside world. */
  ghost predicate Means(ops: seq<Op>, i: nat, done: seq<Rule>, e: Expr) {
    i < |ops| && forall w: World, n: nat :: EvalAll(w, n, ops)[i] == EvalExpr(w, n, EvalRules(w, n, done), e)
  }

  /** Op `i` passes on the record of the named rule. */
  ghost predicate FanMeans(ops: seq<Op>, i: nat, done: seq<Rule>, name: string) {
    i < |ops| && forall w: World, n: nat :: EvalAll(w, n, ops)[i] == Lookup(EvalRules(w, n, done), name)
  }

  /** There is a fan-out for each rule compiled, and it passes on that rule's record. */
  ghost predicate FansMean(ops: seq<Op>, fans: map<string, Fan>, done: seq<Rule>) {
    && (forall name :: name in fans <==> Named(done, name))
    && (forall name :: name in fans ==> FanMeans(ops, fans[name].op, done, name))
  }

  lemma {:induction false} MeansLater(ops: seq<Op>, later: seq<Op>, i: nat, done: seq<Rule>, e: Expr)
    requires Prefix(ops, later) && Means(ops, i, done, e)
    ensures Means(later, i, done, e)
  {
    forall w: World, n: nat ensures EvalAll(w, n, later)[i] == EvalExpr(w, n, EvalRules(w, n, done), e) {
      SameValue(w, n, ops, later, i);
    }
  }

  lemma {:induction false} FanMeansLater(ops: seq<Op>, later: seq<Op>, i: nat, done: seq<Rule>, name: string)
    requires Prefix(ops, later) && FanMeans(ops, i, done, name)
    ensures FanMeans(later, i, done, name)
  {
    forall w: World, n: nat ensures EvalAll(w, n, later)[i] == Lookup(EvalRules(w, n, done), name) {
      SameValue(w, n, ops, later, i);
    }
  }

  /** The same fan-outs, though some have given away more outlets. */
  ghost predicate SameFans(fans: map<string, Fan>, later: map<string, Fan>) {
    fans.Keys == later.Keys && forall name :: name in fans ==> later[name].op == fans[name].op
  }

  lemma {:induction false} FansMeanLater(ops: seq<Op>, later: seq<Op>, fans: map<string, Fan>, fans': map<string, Fan>, done: seq<Rule>)
    requires Prefix(ops, later) && SameFans(fans, fans') && FansMean(ops, fans, done)
    ensures FansMean(later, fans', done)
  {
    forall name | name in fans' ensures FanMeans(later, fans'[name].op, done, name) {
      FanMeansLater(ops, later, fans[name].op, done, name);
    }
  }

  lemma {:induction false} LeafMeans(ops: seq<Op>, e: Expr, kind: Kind, done: seq<Rule>)
    requires (e.Lit? && kind == Const(e.v)) || (e.Brr? && kind == ProjectBrr(e.field))
    ensures Means(ops + [Op(kind, [], 1)], |ops|, done, e)
  {
    forall w: World, n: nat
      ensures EvalAll(w, n, ops + [Op(kind, [], 1)])[|ops|] == EvalExpr(w, n, EvalRules(w, n, done), e)
    {
      EvalSnoc(w, n, ops, Op(kind, [], 1));
    }
  }

  lemma {:induction false} RefMeans(ops: seq<Op>, c: Chan, name: string, proj: UnOp, done: seq<Rule>)
    requires FanMeans(ops, c.src, done, name)
    ensures Means(ops + [Op(Un(proj), [c], 1)], |ops|, done, Ref(name, proj))
  {
    var op := Op(Un(proj), [c], 1);
    forall w: World, n: nat
      ensures EvalAll(w, n, ops + [op])[|ops|] == EvalExpr(w, n, EvalRules(w, n, done), Ref(name, proj))
    {
      EvalSnoc(w, n, ops, op);
      assert Gather(EvalAll(w, n, ops), [c])[0] == Lookup(EvalRules(w, n, done), name);
    }
  }

  lemma {:induction false} UnaryMeans(ops: seq<Op>, c: Chan, f: UnOp, arg: Expr, done: seq<Rule>)
    requires Means(ops, c.src, done, arg)
    ensures Means(ops + [Op(Un(f), [c], 1)], |ops|, done, Unary(f, arg))
  {
    var op := Op(Un(f), [c], 1);
    forall w: World, n: nat
      ensures EvalAll(w, n, ops + [op])[|ops|] == EvalExpr(w, n, EvalRules(w, n, done), Unary(f, arg))
    {
      EvalSnoc(w, n, ops, op);
      assert Gather(EvalAll(w, n, ops), [c])[0] == EvalExpr(w, n, EvalRules(w, n, done), arg);
    }
  }

  lemma {:induction false} BinaryMeans(ops: seq<Op>, a: Chan, b: Chan, bop: BinOp, l: Expr, r: Expr, done: seq<Rule>)
    requires Means(ops, a.src, done, l) && Means(ops, b.src, done, r)
    ensures Means(ops + [Op(Bool2(bop), [a, b], 1)], |ops|, done, Binary(bop, l, r))
  {
    var op := Op(Bool2(bop), [a, b], 1);
    forall w: World, n: nat
      ensures EvalAll(w, n, ops + [op])[|ops|] == EvalExpr(w, n, EvalRules(w, n, done), Binary(bop, l, r))
    {
      EvalSnoc(w, n, ops, op);
      assert Gather(EvalAll(w, n, ops), [a, b])[0] == EvalExpr(w, n, EvalRules(w, n, done), l);
      assert Gather(EvalAll(w, n, ops), [a, b])[1] == EvalExpr(w, n, EvalRules(w, n, done), r);
    }
  }

  // ---- Compiling an expression -----------------------------------------------------------------------

  /** The fan-outs have an outlet left for every reference in the expression. */
  ghost predicate Fits(code: Code, e: Expr) {
    forall name :: name in code.fans ==>
      && code.fans[name].op < |code.ops|
      && code.fans[name].next + Refs(e, name) <= code.ops[code.fans[name].op].width
  }

  /** As many outlets given away as there are references. */
  ghost predicate Bumped(fans: map<string, Fan>, later: map<string, Fan>, e: Expr) {
    SameFans(fans, later) && forall name :: name in fans ==> later[name].next == fans[name].next + Refs(e, name)
  }

  ghost predicate Resolvable(fans: map<string, Fan>, e: Expr) {
    forall name :: 0 < Refs(e, name) ==> name in fans
  }

  /** `later` extends `code` with ops of which the last computes the expression and alone waits for a reader. */
  ghost predicate Compiled(code: Code, later: Code, e: Expr, open: set<nat>, done: seq<Rule>) {
    && |code.ops| < |later.ops| && Prefix(code.ops, later.ops)
    && Sound(later, open + {|later.ops| - 1})
    && Bumped(code.fans, later.fans, e)
    && Means(later.ops, |later.ops| - 1, done, e)
  }

  lemma {:induction false} Assemble(code: Code, later: Code, e: Expr, open: set<nat>, done: seq<Rule>, i: nat)
    requires |code.ops| <= i && |later.ops| == i + 1 && Prefix(code.ops, later.ops)
    requires Sound(later, open + {i}) && Bumped(code.fans, later.fans, e) && Means(later.ops, i, done, e)
    ensures Compiled(code, later, e, open, done)
  {
    assert |later.ops| - 1 == i;
  }

  lemma {:induction false} PrefixSnoc(a: seq<Op>, b: seq<Op>, op: Op)
    requires Prefix(a, b)
    ensures Prefix(a, b + [op])
  {
    assert (b + [op])[..|a|] == b[..|a|];
  }

  lemma {:induction false} LeafSound(code: Code, kind: Kind, open: set<nat>)
    requires Sound(code, open) && Arity(kind, 0) && !kind.Fanout? && !kind.Relay?
    ensures Sound(Emit(code, kind, [], 1, 1), open + {|code.ops|})
  {
    hide Sound;
    EmitSound(code, kind, [], open);
    assert open - Sources([]) == open;
  }

  lemma {:induction false} LeafBumped(fans: map<string, Fan>, e: Expr)
    requires e.Lit? || e.Brr?
    ensures Bumped(fans, fans, e) && Resolvable(fans, e)
  {
  }

  lemma {:induction false} LeafCompiled(code: Code, e: Expr, kind: Kind, open: set<nat>, done: seq<Rule>)
    requires Sound(code, open)
    requires (e.Lit? && kind == Const(e.v)) || (e.Brr? && kind == ProjectBrr(e.field))
    ensures Compiled(code, Emit(code, kind, [], 1, 1), e, open, done)
    ensures Resolvable(code.fans, e)
  {
    hide Sound, Means, Bumped, Prefix;
    LeafSound(code, kind, open);
    LeafMeans(code.ops, e, kind, done);
    LeafBumped(code.fans, e);
    PrefixSnoc(code.ops, code.ops, Op(kind, [], 1));
    Assemble(code, Emit(code, kind, [], 1, 1), e, open, done, |code.ops|);
  }

  lemma {:induction false} RefCompiled(code: Code, name: string, proj: UnOp, open: set<nat>, done: seq<Rule>)
    requires Sound(code, open) && Fits(code, Ref(name, proj)) && name in code.fans
    requires FanMeans(code.ops, code.fans[name].op, done, name)
    ensures Compiled(code, EmitRef(code, name, proj), Ref(name, proj), open, done)
  {
    hide Sound, FanMeans, Means, Bumped, Prefix;
    assert Refs(Ref(name, proj), name) == 1;
    RefSound(code, name, proj, open);
    RefMeans(code.ops, Chan(code.fans[name].op, code.fans[name].next), name, proj, done);
    RefBumped(code.fans, name, proj);
    PrefixSnoc(code.ops, code.ops, Op(Un(proj), [Chan(code.fans[name].op, code.fans[name].next)], 1));
    Assemble(code, EmitRef(code, name, proj), Ref(name, proj), open, done, |code.ops|);
  }

  lemma {:induction false} RefBumped(fans: map<string, Fan>, name: string, proj: UnOp)
    requires name in fans
    ensures Bumped(fans, fans[name := Fan(fans[name].op, fans[name].next + 1)], Ref(name, proj))
  {
  }

  lemma {:induction false} UnarySound(later: Code, f: UnOp, open: set<nat>, i: nat)
    requires Sound(later, open + {i}) && i !in open
    ensures Sound(Emit(later, Un(f), [Chan(i, 0)], 1, 1), open + {|later.ops|})
  {
    hide Sound;
    OneSource(open, i);
    OneOpens(open, i);
    EmitSound(later, Un(f), [Chan(i, 0)], open + {i});
  }

  lemma {:induction false} OneSource(open: set<nat>, i: nat)
    requires i !in open
    ensures open + {i} - Sources([Chan(i, 0)]) == open
  {
    assert [Chan(i, 0)][0] in [Chan(i, 0)];
  }

  lemma {:induction false} OneOpens(open: set<nat>, i: nat)
    ensures Opens([Chan(i, 0)], open + {i})
  {
  }

  lemma {:induction false} BinarySound(both: Code, op: BinOp, open: set<nat>, i: nat, j: nat)
    requires Sound(both, open + {i} + {j}) && i !in open && j !in open && i != j
    ensures Sound(Emit(both, Bool2(op), [Chan(i, 0), Chan(j, 0)], 1, 1), open + {|both.ops|})
  {
    hide Sound;
    EmitSound(both, Bool2(op), [Chan(i, 0), Chan(j, 0)], open + {i} + {j});
    TwoSources(open, i, j);
  }

  lemma {:induction false} TwoSources(open: set<nat>, i: nat, j: nat)
    requires i !in open && j !in open
    ensures open + {i} + {j} - Sources([Chan(i, 0), Chan(j, 0)]) == open
  {
    var ins := [Chan(i, 0), Chan(j, 0)];
    assert ins[0] in ins && ins[1] in ins;
  }

  lemma {:induction false} UnaryCompiled(code: Code, later: Code, f: UnOp, arg: Expr, open: set<nat>, done: seq<Rule>)
    requires Sound(code, open) && Compiled(code, later, arg, open, done)
    ensures Compiled(code, Emit(later, Un(f), [Chan(|later.ops| - 1, 0)], 1, 1), Unary(f, arg), open, done)
  {
    hide Sound, Means, Bumped, Prefix;
    var i := |later.ops| - 1;
    NewNotOpen(code, open, i);
    UnarySound(later, f, open, i);
    UnaryBumped(code.fans, later.fans, f, arg);
    UnaryMeans(later.ops, Chan(i, 0), f, arg, done);
    PrefixSnoc(code.ops, later.ops, Op(Un(f), [Chan(i, 0)], 1));
    Assemble(code, Emit(later, Un(f), [Chan(i, 0)], 1, 1), Unary(f, arg), open, done, |later.ops|);
  }

  lemma {:induction false} BinaryMeaning(left: Code, both: Code, op: BinOp, l: Expr, r: Expr, i: nat, j: nat, done: seq<Rule>)
    requires Prefix(left.ops, both.ops) && Means(left.ops, i, done, l) && Means(both.ops, j, done, r)
    ensures Means(both.ops + [Op(Bool2(op), [Chan(i, 0), Chan(j, 0)], 1)], |both.ops|, done, Binary(op, l, r))
  {
    MeansLater(left.ops, both.ops, i, done, l);
    BinaryMeans(both.ops, Chan(i, 0), Chan(j, 0), op, l, r, done);
  }

  lemma {:induction false} BinaryCompiled(code: Code, left: Code, both: Code, op: BinOp, l: Expr, r: Expr, open: set<nat>, done: seq<Rule>)
    requires Compiled(code, left, l, open, done)
    requires Compiled(left, both, r, open + {|left.ops| - 1}, done)
    requires forall i :: i in open ==> i < |code.ops|
    ensures Compiled(code, Emit(both, Bool2(op), [Chan(|left.ops| - 1, 0), Chan(|both.ops| - 1, 0)], 1, 1),
                     Binary(op, l, r), open, done)
  {
    hide Sound, Means, Bumped, Prefix;
    var i, j := |left.ops| - 1, |both.ops| - 1;
    BinarySound(both, op, open, i, j);
    BinaryBumped(code.fans, left.fans, both.fans, op, l, r);
    BinaryMeaning(left, both, op, l, r, i, j, done);
    PrefixTrans(code.ops, left.ops, both.ops, Op(Bool2(op), [Chan(i, 0), Chan(j, 0)], 1));
    Assemble(code, Emit(both, Bool2(op), [Chan(i, 0), Chan(j, 0)], 1, 1), Binary(op, l, r), open, done, |both.ops|);
  }

  lemma {:induction false} PrefixTrans(a: seq<Op>, b: seq<Op>, c: seq<Op>, op: Op)
    requires Prefix(a, b) && Prefix(b, c)
    ensures Prefix(a, c + [op])
  {
    assert (c + [op])[..|a|] == c[..|b|][..|a|];
  }

  lemma {:induction false} UnaryBumped(fans: map<string, Fan>, later: map<string, Fan>, f: UnOp, arg: Expr)
    requires Bumped(fans, later, arg)
    ensures Bumped(fans, later, Unary(f, arg))
    ensures Resolvable(fans, Unary(f, arg)) <==> Resolvable(fans, arg)
  {
    assert forall name :: Refs(Unary(f, arg), name) == Refs(arg, name);
  }

  lemma {:induction false} BinaryBumped(fans: map<string, Fan>, left: map<string, Fan>, both: map<string, Fan>, op: BinOp, l: Expr, r: Expr)
    requires Bumped(fans, left, l) && Bumped(left, both, r)
    ensures Bumped(fans, both, Binary(op, l, r))
  {
    assert forall name :: Refs(Binary(op, l, r), name) == Refs(l, name) + Refs(r, name);
  }

  lemma {:induction false} BinaryResolvable(fans: map<string, Fan>, op: BinOp, l: Expr, r: Expr)
    ensures Resolvable(fans, Binary(op, l, r)) <==> Resolvable(fans, l) && Resolvable(fans, r)
  {
    assert forall name :: Refs(Binary(op, l, r), name) == Refs(l, name) + Refs(r, name);
  }

  lemma {:induction false} PartFits(code: Code, e: Expr, part: Expr)
    requires Fits(code, e)
    requires (e.Unary? && part == e.arg) || (e.Binary? && part == e.left)
    ensures Fits(code, part)
    ensures e.Unary? ==> (Resolvable(code.fans, part) <==> Resolvable(code.fans, e))
  {
    assert forall name :: Refs(part, name) <= Refs(e, name);
    if e.Unary? {
      assert forall name :: Refs(part, name) == Refs(e, name);
    }
  }

  lemma {:induction false} RightFits(code: Code, left: Code, op: BinOp, l: Expr, r: Expr)
    requires Fits(code, Binary(op, l, r)) && Prefix(code.ops, left.ops) && Bumped(code.fans, left.fans, l)
    ensures Fits(left, r)
    ensures Resolvable(left.fans, r) <==> Resolvable(code.fans, r)
  {
    forall name | name in left.fans
      ensures left.fans[name].op < |left.ops|
      ensures left.fans[name].next + Refs(r, name) <= left.ops[left.fans[name].op].width
    {
      assert Refs(Binary(op, l, r), name) == Refs(l, name) + Refs(r, name);
      assert left.ops[left.fans[name].op] == left.ops[..|code.ops|][code.fans[name].op];
    }
  }

  lemma {:induction false} NewNotOpen(code: Code, open: set<nat>, i: nat)
    requires Sound(code, open) && |code.ops| <= i
    ensures i !in open
  {
  }

  /**
    The recursion of compile() over an expression.  It fails exactly when a
    reference finds no entry in the fan-out map; otherwise the last op computes the
    expression and its outlet is the only new one without a reader.
   */
  method CompileExpr(code: Code, e: Expr, ghost open: set<nat>, ghost done: seq<Rule>) returns (ok: bool, later: Code)
    requires Sound(code, open) && Fits(code, e) && FansMean(code.ops, code.fans, done)
    ensures ok <==> Resolvable(code.fans, e)
    ensures ok ==> Compiled(code, later, e, open, done)
    ensures ok ==> Alike(code.ops, later.ops) && EndsPlain(later.ops)
    decreases e
  {
    match e
    case Lit(v) =>
      ok := true;
      later := CompileLeaf(code, e, Const(v), open, done);
    case Brr(field) =>
      ok := true;
      later := CompileLeaf(code, e, ProjectBrr(field), open, done);
    case Ref(name, proj) =>
      ok, later := CompileRef(code, name, proj, open, done);
    case Unary(f, arg) =>
      ok, later := CompileUnary(code, f, arg, open, done);
    case Binary(op, l, r) =>
      ok, later := CompileBinary(code, op, l, r, open, done);
  }

  method CompileLeaf(code: Code, e: Expr, kind: Kind, ghost open: set<nat>, ghost done: seq<Rule>) returns (later: Code)
    requires Sound(code, open)
    requires (e.Lit? && kind == Const(e.v)) || (e.Brr? && kind == ProjectBrr(e.field))
    ensures Compiled(code, later, e, open, done) && Resolvable(code.fans, e)
    ensures Alike(code.ops, later.ops) && EndsPlain(later.ops)
  {
    LeafCompiled(code, e, kind, open, done);
    FanOpsSnoc(code.ops, Op(kind, [], 1));
    later := Emit(code, kind, [], 1, 1);
  }

  method CompileRef(code: Code, name: string, proj: UnOp, ghost open: set<nat>, ghost done: seq<Rule>)
      returns (ok: bool, later: Code)
    requires Sound(code, open) && Fits(code, Ref(name, proj)) && FansMean(code.ops, code.fans, done)
    ensures ok <==> Resolvable(code.fans, Ref(name, proj))
    ensures ok ==> Compiled(code, later, Ref(name, proj), open, done)
    ensures ok ==> Alike(code.ops, later.ops) && EndsPlain(later.ops)
  {
    hide Sound, FanMeans, Means, Bumped, Prefix, Fits, FanOps, ShortArgvs;
    assert 0 < Refs(Ref(name, proj), name);
    if name !in code.fans {
      return false, code;
    }
    RefCompiled(code, name, proj, open, done);
    FanOpsSnoc(code.ops, Op(Un(proj), [Chan(code.fans[name].op, code.fans[name].next)], 1));
    return true, EmitRef(code, name, proj);
  }

  method CompileUnary(code: Code, f: UnOp, arg: Expr, ghost open: set<nat>, ghost done: seq<Rule>)
      returns (ok: bool, later: Code)
    requires Sound(code, open) && Fits(code, Unary(f, arg)) && FansMean(code.ops, code.fans, done)
    ensures ok <==> Resolvable(code.fans, Unary(f, arg))
    ensures ok ==> Compiled(code, later, Unary(f, arg), open, done)
    ensures ok ==> Alike(code.ops, later.ops) && EndsPlain(later.ops)
    decreases Unary(f, arg), 0
  {
    hide Sound, Means, Bumped, Prefix, Fits, FansMean, FanOps, ShortArgvs, Resolvable;
    PartFits(code, Unary(f, arg), arg);
    ok, later := CompileExpr(code, arg, open, done);
    if ok {
      UnaryCompiled(code, later, f, arg, open, done);
      FanOpsSnoc(later.ops, Op(Un(f), [Chan(|later.ops| - 1, 0)], 1));
      later := Emit(later, Un(f), [Chan(|later.ops| - 1, 0)], 1, 1);
    }
  }

  method CompileBinary(code: Code, op: BinOp, l: Expr, r: Expr, ghost open: set<nat>, ghost done: seq<Rule>)
      returns (ok: bool, later: Code)
    requires Sound(code, open) && Fits(code, Binary(op, l, r)) && FansMean(code.ops, code.fans, done)
    ensures ok <==> Resolvable(code.fans, Binary(op, l, r))
    ensures ok ==> Compiled(code, later, Binary(op, l, r), open, done)
    ensures ok ==> Alike(code.ops, later.ops) && EndsPlain(later.ops)
    decreases Binary(op, l, r), 0
  {
    hide Means, Prefix, Fits, FansMean, FanOps, ShortArgvs, Resolvable, Wired, SlotsOk, GatedCount;
    PartFits(code, Binary(op, l, r), l);
    BinaryResolvable(code.fans, op, l, r);
    ok, later := CompileExpr(code, l, open, done);
    if ok {
      var left := later;
      RightFits(code, left, op, l, r);
      FansMeanLater(code.ops, left.ops, code.fans, left.fans, done);
      ok, later := CompileExpr(left, r, open + {|left.ops| - 1}, done);
      if ok {
        BinaryCompiled(code, left, later, op, l, r, open, done);
        FanOpsSnoc(later.ops, Op(Bool2(op), [Chan(|left.ops| - 1, 0), Chan(|later.ops| - 1, 0)], 1));
        later := Emit(later, Bool2(op), [Chan(|left.ops| - 1, 0), Chan(|later.ops| - 1, 0)], 1, 1);
      }
    }
  }
}
