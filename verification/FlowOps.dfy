/**
  The values and goroutine bodies of the flow engine (flowd/flow.go): `OpSpec` gives the output of an op as
  a function of its inputs, `OpResult` what its goroutine computes from them in the order of arrival.
 */
module FlowOps {
  import opened Text
  import opened Collections
  import opened Rummy

  /** What firing a command (xdr) or a query (qdr) leaves behind. */
  datatype Record =
    | Xdr(ok: bool, exitStatus: nat)
    | Qdr(ok: bool, rowsAffected: nat, sqlstate: string, row: seq<Option<bool>>)

  /** A value sent on a channel.  A null value carries the zero of its type. */
  datatype Val =
    | BoolV(isNull: bool, b: bool)
    | StrV(isNull: bool, s: string)
    | UIntV(isNull: bool, u: nat)
    | ArgvV(isNull: bool, argv: seq<string>)
    | RecV(isNull: bool, rec: Option<Record>)
    | FdrV(okCount: nat, faultCount: nat)

  /** Everything outside the engine: the records flowed, commands, queries, sync maps, regular expressions. */
  datatype World = World(
    brr: (nat, nat) -> string,
    fire: (nat, string, seq<string>) -> Record,
    loaded: (nat, nat, string) -> bool,
    matches: (string, string) -> bool)

  /** Ops with one input channel. */
  datatype UnOp =
    | CastString
    | EqUInt(u: nat) | NeqUInt(u: nat)
    | EqString(s: string) | NeqString(s: string)
    | Match(rex: string) | NoMatch(rex: string)
    | EqBool(b: bool) | NeqBool(b: bool)
    | SyncMapLoaded(site: nat)
    | Argv1
    | ExitStatus | RowBool(field: nat) | RowsAffected | Sqlstate
    | Log

  datatype Kind =
    | Const(v: Val)
    | ProjectBrr(field: nat)
    | Un(f: UnOp)
    | Bool2(op: BinOp)
    | Argv(argc: nat)
    | Fire(name: string, builtin: bool)
    | Fanout
    | Relay
    | Reduce

  function TriOf(v: Val): Tri {
    if !v.BoolV? || v.isNull then Null else if v.b then True else False
  }

  function OfTri(t: Tri): Val {
    BoolV(t == Null, t == True)
  }

  /** A comparison is null when its operand is null. */
  function Compare(isNull: bool, b: bool): Val {
    BoolV(isNull, !isNull && b)
  }

  function UnSpec(w: World, n: nat, f: UnOp, v: Val): Val {
    match f
    case CastString => if v.UIntV? && !v.isNull then StrV(false, Decimal(v.u)) else StrV(true, "")
    case EqUInt(u) => Compare(!v.UIntV? || v.isNull, v.UIntV? && u == v.u)
    case NeqUInt(u) => Compare(!v.UIntV? || v.isNull, v.UIntV? && u != v.u)
    case EqString(s) => Compare(!v.StrV? || v.isNull, v.StrV? && s == v.s)
    case NeqString(s) => Compare(!v.StrV? || v.isNull, v.StrV? && s != v.s)
    case Match(rex) => Compare(!v.StrV? || v.isNull, v.StrV? && w.matches(rex, v.s))
    case NoMatch(rex) => Compare(!v.StrV? || v.isNull, v.StrV? && !w.matches(rex, v.s))
    case EqBool(b) => Compare(!v.BoolV? || v.isNull, v.BoolV? && b == v.b)
    case NeqBool(b) => Compare(!v.BoolV? || v.isNull, v.BoolV? && b != v.b)
    case SyncMapLoaded(site) => BoolV(false, v.StrV? && w.loaded(n, site, v.s))
    case Argv1 => if v.StrV? then ArgvV(v.isNull, [v.s]) else ArgvV(true, [""])
    case ExitStatus =>
      if v.RecV? && !v.isNull && v.rec.Some? && v.rec.value.Xdr? then UIntV(false, v.rec.value.exitStatus) else UIntV(true, 0)
    case RowBool(field) =>
      if v.RecV? && v.rec.Some? && v.rec.value.Qdr? && v.rec.value.rowsAffected > 0
         && field < |v.rec.value.row| && v.rec.value.row[field].Some?
      then BoolV(false, v.rec.value.row[field].value) else BoolV(true, false)
    case RowsAffected =>
      if v.RecV? && !v.isNull && v.rec.Some? && v.rec.value.Qdr? then UIntV(false, v.rec.value.rowsAffected) else UIntV(true, 0)
    case Sqlstate =>
      if v.RecV? && !v.isNull && v.rec.Some? && v.rec.value.Qdr? then StrV(false, v.rec.value.sqlstate) else StrV(true, "")
    case Log => v
  }

  /**
    A rule fires if and only if its argv and its when clause are not null and
    the when clause is true.  A false clause yields a record-less value that is
    not null.
   */
  function FireSpec(w: World, n: nat, name: string, builtin: bool, argv: Val, when: Val): Val {
    if !argv.ArgvV? || argv.isNull || !when.BoolV? || when.isNull then RecV(true, None)
    else if when.b then RecV(false, Some(if builtin then Xdr(true, 0) else w.fire(n, name, argv.argv)))
    else RecV(false, None)
  }

  function StringOf(v: Val): string {
    if v.StrV? then v.s else ""
  }

  predicate IsNullString(v: Val) {
    !v.StrV? || v.isNull
  }

  /** argv over its ports: any null element makes the whole vector null. */
  function ArgvSpec(vals: seq<Val>): Val {
    ArgvV(exists i :: 0 <= i < |vals| && IsNullString(vals[i]), seq(|vals|, i requires 0 <= i < |vals| => StringOf(vals[i])))
  }

  predicate FiredOk(v: Val) {
    v.RecV? && !v.isNull && v.rec.Some? && v.rec.value.ok
  }

  predicate FiredFault(v: Val) {
    v.RecV? && !v.isNull && v.rec.Some? && !v.rec.value.ok
  }

  /** How many of the values satisfy the test. */
  function Count(vals: seq<Val>, p: Val -> bool): nat {
    if vals == [] then 0 else (if p(vals[0]) then 1 else 0) + Count(vals[1..], p)
  }

  /** The places of the values that satisfy the test. */
  function Places(vals: seq<Val>, p: Val -> bool): set<nat> {
    set j: nat | j < |vals| && p(vals[j])
  }

  lemma {:induction false} CountIsPlaces(vals: seq<Val>, p: Val -> bool)
    ensures Count(vals, p) == |Places(vals, p)|
  {
    if vals != [] {
      var rest, v := vals[..|vals| - 1], vals[|vals| - 1];
      CountIsPlaces(rest, p);
      CountSplit(rest, [v], p);
      CountOne(v, p);
      assert vals == rest + [v];
      assert Places(vals, p) == Places(rest, p) + if p(v) then {|rest|} else {};
    }
  }

  const COUNTER := 256

  function Arg(vals: seq<Val>, p: nat): Val {
    if p < |vals| then vals[p] else BoolV(true, false)
  }

  /** The output of an op as a function of the values on its ports, for flow `n`. */
  function OpSpec(w: World, n: nat, kind: Kind, vals: seq<Val>): Val {
    match kind
    case Const(v) => v
    case ProjectBrr(field) => StrV(false, w.brr(n, field))
    case Un(f) => UnSpec(w, n, f, Arg(vals, 0))
    case Bool2(op) => OfTri(Sql(op, TriOf(Arg(vals, 0)), TriOf(Arg(vals, 1))))
    case Argv(_) => ArgvSpec(vals)
    case Fire(name, builtin) => FireSpec(w, n, name, builtin, Arg(vals, 0), Arg(vals, 1))
    case Fanout => Arg(vals, 0)
    case Relay => Arg(vals, 0)
    case Reduce => FdrV(Count(vals, FiredOk) % COUNTER, Count(vals, FiredFault) % COUNTER)
  }

  /** A number in a uint8. */
  function Low8(n: nat): (m: nat)
    ensures m < COUNTER && (n < COUNTER <==> m == n)
  {
    n % COUNTER
  }

  predicate Arity(kind: Kind, n: nat) {
    match kind
    case Const(_) => n == 0
    case ProjectBrr(_) => n == 0
    case Un(_) => n == 1
    case Bool2(_) => n == 2
    case Argv(argc) => n == argc
    case Fire(_, _) => n == 2
    case Fanout => n == 1
    case Relay => n == 1
    case Reduce => true
  }

  /** How many values the goroutine takes in a flow before it sends: argv() keeps the count of its inputs in a uint8. */
  function Wanted(kind: Kind, ports: nat): nat {
    if kind.Argv? then Low8(ports) else ports
  }

  /** The count holds. */
  predicate Countable(kind: Kind, ports: nat) {
    kind.Argv? ==> ports < COUNTER
  }

  /** A value taken from the channel on a port. */
  datatype Arrival = Arrival(port: nat, v: Val)

  predicate Seen(arr: seq<Arrival>, p: nat) {
    exists k :: 0 <= k < |arr| && arr[k].port == p
  }

  function Operands(arr: seq<Arrival>): seq<Operand> {
    seq(|arr|, k requires 0 <= k < |arr| => Operand(arr[k].port == 0, TriOf(arr[k].v)))
  }

  /** bool2 has its answer although an operand may still be unread. */
  predicate Answered(op: BinOp, arr: seq<Arrival>) {
    WaitFold(op, Operands(arr), WAIT, WAIT) != WAIT
  }

  /** argv's loop: store each string at its position, remember any null. Count and position are eight bits wide. */
  function ArgvFold(argc: nat, arr: seq<Arrival>): (r: Val)
    ensures r.ArgvV? && |r.argv| == Low8(argc)
  {
    if arr == [] then ArgvV(false, seq(Low8(argc), _ => ""))
    else
      var a := arr[|arr| - 1];
      var before := ArgvFold(argc, arr[..|arr| - 1]);
      if Low8(a.port) < Low8(argc)
      then ArgvV(before.isNull || IsNullString(a.v), before.argv[Low8(a.port) := StringOf(a.v)])
      else before
  }

  /** argv's store at the position panics: it is past the end of the vector, or over a string that is not empty. */
  predicate Overruns(argc: nat, arr: seq<Arrival>, p: nat) {
    Low8(argc) <= Low8(p) || ArgvFold(argc, arr).argv[Low8(p)] != ""
  }

  /** reduce's loop: two eight-bit counters. */
  function ReduceFold(arr: seq<Arrival>): Val {
    if arr == [] then FdrV(0, 0)
    else
      var v := arr[|arr| - 1].v;
      var before := ReduceFold(arr[..|arr| - 1]);
      if !before.FdrV? then before
      else FdrV(Bump(before.okCount, FiredOk(v)), Bump(before.faultCount, FiredFault(v)))
  }

  /** The value last taken on a port. */
  function Latest(arr: seq<Arrival>, p: nat): Val {
    if arr == [] then BoolV(true, false)
    else if arr[|arr| - 1].port == p then arr[|arr| - 1].v
    else Latest(arr[..|arr| - 1], p)
  }

  /** What the goroutine sends after taking its inputs in the order `arr`. */
  function OpResult(w: World, n: nat, kind: Kind, arr: seq<Arrival>): Val {
    match kind
    case Const(v) => v
    case ProjectBrr(field) => StrV(false, w.brr(n, field))
    case Un(f) => UnSpec(w, n, f, Latest(arr, 0))
    case Bool2(op) => OfTri(Decode(WaitFold(op, Operands(arr), WAIT, WAIT)))
    case Argv(argc) => ArgvFold(argc, arr)
    case Fire(name, builtin) => FireSpec(w, n, name, builtin, Latest(arr, 0), Latest(arr, 1))
    case Fanout => Latest(arr, 0)
    case Relay => Latest(arr, 0)
    case Reduce => ReduceFold(arr)
  }

  /** No port twice, every arrival on a port and carrying that port's value. */
  ghost predicate Orderly(arr: seq<Arrival>, vals: seq<Val>) {
    && (forall k :: 0 <= k < |arr| ==> arr[k].port < |vals| && arr[k].v == vals[arr[k].port])
    && (forall j, k :: 0 <= j < k < |arr| ==> arr[j].port != arr[k].port)
  }

  function Ports(arr: seq<Arrival>): set<nat> {
    if arr == [] then {} else Ports(arr[..|arr| - 1]) + {arr[|arr| - 1].port}
  }

  function Below(n: nat): set<nat> {
    if n == 0 then {} else Below(n - 1) + {n - 1}
  }

  lemma {:induction false} BelowSize(n: nat)
    ensures |Below(n)| == n
    ensures forall i: nat :: i in Below(n) <==> i < n
  {
    if n > 0 {
      BelowSize(n - 1);
    }
  }

  lemma {:induction false} SeenLast(arr: seq<Arrival>, p: nat)
    requires arr != []
    ensures Seen(arr, p) <==> Seen(arr[..|arr| - 1], p) || p == arr[|arr| - 1].port
  {
    var rest := arr[..|arr| - 1];
    if Seen(rest, p) {
      var k :| 0 <= k < |rest| && rest[k].port == p;
      assert arr[k].port == p;
    }
    if p == arr[|arr| - 1].port {
      assert Seen(arr, p);
    }
  }

  /** Distinct ports: as many as arrivals. */
  lemma {:induction false} PortsSize(arr: seq<Arrival>, vals: seq<Val>)
    requires Orderly(arr, vals)
    ensures |Ports(arr)| == |arr|
    ensures forall p: nat :: p in Ports(arr) <==> Seen(arr, p)
    ensures forall p: nat :: p in Ports(arr) ==> p < |vals|
  {
    if arr != [] {
      PortsSize(arr[..|arr| - 1], vals);
      forall p: nat ensures p in Ports(arr) <==> Seen(arr, p) {
        SeenLast(arr, p);
      }
      assert arr[|arr| - 1].port !in Ports(arr[..|arr| - 1]);
    }
  }

  /** As many orderly arrivals as ports: every port has been seen. */
  lemma {:induction false} AllSeen(arr: seq<Arrival>, vals: seq<Val>, p: nat)
    requires Orderly(arr, vals) && |arr| == |vals| && p < |vals|
    ensures Seen(arr, p)
  {
    PortsSize(arr, vals);
    BelowSize(|vals|);
    SubsetSize(Ports(arr), Below(|vals|));
  }

  lemma {:induction false} LatestOf(arr: seq<Arrival>, vals: seq<Val>, p: nat)
    requires Orderly(arr, vals) && Seen(arr, p)
    ensures p < |vals| && Latest(arr, p) == vals[p]
  {
    if arr[|arr| - 1].port != p {
      LatestOf(arr[..|arr| - 1], vals, p);
    }
  }

  lemma {:induction false} ArgvFoldOf(argc: nat, arr: seq<Arrival>, vals: seq<Val>)
    requires Orderly(arr, vals) && |vals| == argc < COUNTER
    ensures
      var r := ArgvFold(argc, arr);
      && |r.argv| == argc
      && (forall p :: 0 <= p < argc ==> r.argv[p] == if Seen(arr, p) then StringOf(vals[p]) else "")
      && (r.isNull <==> exists p :: 0 <= p < argc && Seen(arr, p) && IsNullString(vals[p]))
  {
    if arr != [] {
      var rest, a := arr[..|arr| - 1], arr[|arr| - 1];
      ArgvFoldOf(argc, rest, vals);
      forall p | 0 <= p < argc
        ensures Seen(arr, p) <==> Seen(rest, p) || p == a.port
      {
        SeenLast(arr, p);
      }
    }
  }

  /** The next string of an orderly vector has its own empty place. */
  lemma {:induction false} NextFits(argc: nat, arr: seq<Arrival>, vals: seq<Val>, p: nat)
    requires Orderly(arr, vals) && |vals| == argc < COUNTER && p < argc && !Seen(arr, p)
    ensures !Overruns(argc, arr, p)
  {
    ArgvFoldOf(argc, arr, vals);
  }

  function Values(arr: seq<Arrival>): seq<Val> {
    seq(|arr|, k requires 0 <= k < |arr| => arr[k].v)
  }

  lemma {:induction false} CountSplit(a: seq<Val>, b: seq<Val>, p: Val -> bool)
    ensures Count(a + b, p) == Count(a, p) + Count(b, p)
  {
    if a == [] {
      assert a + b == b;
    } else {
      assert (a + b)[1..] == a[1..] + b;
      CountSplit(a[1..], b, p);
    }
  }

  lemma {:induction false} CountOne(v: Val, p: Val -> bool)
    ensures Count([v], p) == if p(v) then 1 else 0
  {
    assert [v][1..] == [];
  }

  function Bump(count: nat, fires: bool): nat {
    if fires then (count + 1) % COUNTER else count
  }

  lemma {:induction false} BumpMod(c: nat, fires: bool)
    ensures Bump(c % COUNTER, fires) == (c + if fires then 1 else 0) % COUNTER
  {
  }

  lemma {:induction false} ReduceFoldOf(arr: seq<Arrival>)
    ensures ReduceFold(arr) == FdrV(Count(Values(arr), FiredOk) % COUNTER, Count(Values(arr), FiredFault) % COUNTER)
  {
    if arr != [] {
      var rest, v := arr[..|arr| - 1], arr[|arr| - 1].v;
      ReduceFoldOf(rest);
      assert Values(arr) == Values(rest) + [v];
      CountSplit(Values(rest), [v], FiredOk);
      CountSplit(Values(rest), [v], FiredFault);
      CountOne(v, FiredOk);
      CountOne(v, FiredFault);
      BumpMod(Count(Values(rest), FiredOk), FiredOk(v));
      BumpMod(Count(Values(rest), FiredFault), FiredFault(v));
    }
  }

  /** The arrivals with a record that says ok. */
  function OkArrivals(arr: seq<Arrival>): set<nat> {
    set k: nat | k < |arr| && var v := arr[k].v; v.RecV? && !v.isNull && v.rec.Some? && v.rec.value.ok
  }

  /** The arrivals with a record that does not. */
  function FaultArrivals(arr: seq<Arrival>): set<nat> {
    set k: nat | k < |arr| && var v := arr[k].v; v.RecV? && !v.isNull && v.rec.Some? && !v.rec.value.ok
  }

  /** reduce has the number of each, in eight bits. */
  lemma {:induction false} ReduceCounts(arr: seq<Arrival>)
    ensures ReduceFold(arr) == FdrV(|OkArrivals(arr)| % 256, |FaultArrivals(arr)| % 256)
  {
    ReduceFoldOf(arr);
    CountIsPlaces(Values(arr), FiredOk);
    CountIsPlaces(Values(arr), FiredFault);
    assert OkArrivals(arr) == Places(Values(arr), FiredOk);
    assert FaultArrivals(arr) == Places(Values(arr), FiredFault);
  }

  /** Without the arrival on the last port, the rest is orderly for one port less. */
  lemma {:induction false} WithoutLastPort(arr: seq<Arrival>, vals: seq<Val>, i: nat)
    requires vals != [] && Orderly(arr, vals) && i < |arr| && arr[i].port == |vals| - 1
    ensures Orderly(arr[..i] + arr[i + 1..], vals[..|vals| - 1])
  {
    var rest := arr[..i] + arr[i + 1..];
    forall k | 0 <= k < |rest|
      ensures rest[k].port < |vals| - 1 && rest[k].v == vals[rest[k].port]
    {
      assert rest[k] == arr[if k < i then k else k + 1];
    }
  }

  lemma {:induction false} CountInsert(before: seq<Val>, v: Val, after: seq<Val>, p: Val -> bool)
    ensures Count(before + [v] + after, p) == Count(before + after, p) + if p(v) then 1 else 0
  {
    assert before + [v] + after == before + ([v] + after);
    CountSplit(before, [v] + after, p);
    CountSplit([v], after, p);
    CountSplit(before, after, p);
    CountOne(v, p);
  }

  lemma {:induction false} ValuesSplit(arr: seq<Arrival>, i: nat)
    requires i < |arr|
    ensures Values(arr) == Values(arr[..i]) + [arr[i].v] + Values(arr[i + 1..])
    ensures Values(arr[..i] + arr[i + 1..]) == Values(arr[..i]) + Values(arr[i + 1..])
  {
  }

  /** Counting over the arrivals is counting over the ports. */
  lemma {:induction false} CountArrivals(arr: seq<Arrival>, vals: seq<Val>, p: Val -> bool)
    requires Orderly(arr, vals) && |arr| == |vals|
    ensures Count(Values(arr), p) == Count(vals, p)
    decreases |vals|
  {
    if vals != [] {
      var n := |vals| - 1;
      AllSeen(arr, vals, n);
      var i :| 0 <= i < |arr| && arr[i].port == n;
      var rest := arr[..i] + arr[i + 1..];
      WithoutLastPort(arr, vals, i);
      CountArrivals(rest, vals[..n], p);
      ValuesSplit(arr, i);
      CountInsert(Values(arr[..i]), vals[n], Values(arr[i + 1..]), p);
      CountInsert(vals[..n], vals[n], [], p);
      assert vals == vals[..n] + [vals[n]] + [] && vals[..n] + [] == vals[..n];
    }
  }

  lemma {:induction false} Bool2Confluent(op: BinOp, arr: seq<Arrival>, vals: seq<Val>)
    requires |vals| == 2 && Orderly(arr, vals) && |arr| == 2
    ensures WaitFold(op, Operands(arr), WAIT, WAIT) == Code(Sql(op, TriOf(vals[0]), TriOf(vals[1])))
  {
    assert arr[0].port != arr[1].port;
    WaitFoldIsSql(op, Operands(arr));
  }

  /** The vector argv() sends is the one meant exactly when it has fewer than 256 elements, whatever arrived. */
  lemma {:induction false} ArgvExactly(argc: nat, arr: seq<Arrival>, vals: seq<Val>)
    requires Orderly(arr, vals) && |vals| == argc && |arr| == Low8(argc)
    ensures ArgvFold(argc, arr) == ArgvSpec(vals) <==> argc < 256
  {
    if argc < COUNTER {
      forall p | 0 <= p < |vals| ensures Seen(arr, p) {
        AllSeen(arr, vals, p);
      }
      ArgvFoldOf(argc, arr, vals);
      assert ArgvFold(argc, arr).argv == ArgvSpec(vals).argv;
    } else {
      assert |ArgvSpec(vals).argv| == argc;
    }
  }

  /** With 256 arguments an empty vector is sent before any argument is taken. */
  lemma {:induction false} ArgvOf256(vals: seq<Val>)
    requires |vals| == 256
    ensures Wanted(Argv(256), |vals|) == 0
    ensures ArgvFold(256, []) == ArgvV(false, []) && ArgvFold(256, []) != ArgvSpec(vals)
  {
    ArgvExactly(256, [], vals);
  }

  /** Whatever order the inputs arrive in, the goroutine sends the op's value, unless it is an argv that miscounts. */
  lemma {:induction false} OpConfluent(w: World, n: nat, kind: Kind, arr: seq<Arrival>, vals: seq<Val>)
    requires Arity(kind, |vals|)
    requires Orderly(arr, vals) && |arr| == Wanted(kind, |vals|)
    ensures OpResult(w, n, kind, arr) == OpSpec(w, n, kind, vals) <==> Countable(kind, |vals|)
  {
    if kind.Argv? {
      ArgvExactly(kind.argc, arr, vals);
    } else {
      InputsConfluent(w, n, kind, arr, vals);
    }
  }

  lemma {:induction false} InputsConfluent(w: World, n: nat, kind: Kind, arr: seq<Arrival>, vals: seq<Val>)
    requires Arity(kind, |vals|) && !kind.Argv?
    requires Orderly(arr, vals) && |arr| == |vals|
    ensures OpResult(w, n, kind, arr) == OpSpec(w, n, kind, vals)
  {
    forall p | 0 <= p < |vals|
      ensures Seen(arr, p) && Latest(arr, p) == vals[p]
    {
      AllSeen(arr, vals, p);
      LatestOf(arr, vals, p);
    }
    match kind
    case Bool2(op) =>
      Bool2Confluent(op, arr, vals);
    case Reduce =>
      ReduceFoldOf(arr);
      CountArrivals(arr, vals, FiredOk);
      CountArrivals(arr, vals, FiredFault);
    case _ =>
  }
}
