/**
  From the rules in the order of the text to a program in dependency order (flowd/parser.go,
  flowd/compile.go): arcs for references, self-arcs for unreferenced rules, sort, reversal, lookup.
 */
module Depend {
  import opened Text
  import opened Collections
  import opened Rummy
  import opened FlowOps
  import opened Rules
  import opened Compiler
  import Tsort

  type Arcs = seq<Tsort.Arc>

  // ---- References in the order of the text ---------------------------------------------------------

  /** The names an expression mentions; a field of the blob request record mentions the tail. */
  function Mentions(e: Expr, tail: string): seq<string> {
    match e
    case Lit(_) => []
    case Brr(_) => [tail]
    case Ref(name, _) => [name]
    case Unary(_, arg) => Mentions(arg, tail)
    case Binary(_, l, r) => Mentions(l, tail) + Mentions(r, tail)
  }

  function ArgMentions(args: seq<Expr>, tail: string): seq<string> {
    if args == [] then [] else ArgMentions(args[..|args| - 1], tail) + Mentions(args[|args| - 1], tail)
  }

  function RuleMentions(r: Rule, tail: string): seq<string> {
    ArgMentions(r.args, tail) + Mentions(r.when, tail)
  }

  lemma {:induction false} CountConcat(xs: seq<string>, ys: seq<string>, x: string)
    ensures Tsort.Occurrences(xs + ys, x) == Tsort.Occurrences(xs, x) + Tsort.Occurrences(ys, x)
  {
    if ys == [] {
      assert xs + ys == xs;
    } else {
      var rest, y := ys[..|ys| - 1], ys[|ys| - 1];
      CountConcat(xs, rest, x);
      assert xs + ys == (xs + rest) + [y];
      Tsort.CountAppend(xs + rest, x, y);
    }
  }

  lemma {:induction false} CountOne(y: string, x: string)
    ensures Tsort.Occurrences([y], x) == if y == x then 1 else 0
  {
    assert [y][..0] == [];
  }

  lemma {:induction false} MentionsCount(e: Expr, tail: string, name: string)
    requires name != tail
    ensures Tsort.Occurrences(Mentions(e, tail), name) == Refs(e, name)
  {
    match e
    case Lit(_) =>
    case Brr(_) => CountOne(tail, name);
    case Ref(n, _) => CountOne(n, name);
    case Unary(_, arg) => MentionsCount(arg, tail, name);
    case Binary(op, l, r) =>
      MentionsCount(l, tail, name);
      MentionsCount(r, tail, name);
      CountConcat(Mentions(l, tail), Mentions(r, tail), name);
      assert Refs(Binary(op, l, r), name) == Refs(l, name) + Refs(r, name);
  }

  lemma {:induction false} ArgMentionsCount(args: seq<Expr>, tail: string, name: string)
    requires name != tail
    ensures Tsort.Occurrences(ArgMentions(args, tail), name) == ArgRefs(args, name)
  {
    if args != [] {
      var rest, e := args[..|args| - 1], args[|args| - 1];
      ArgMentionsCount(rest, tail, name);
      MentionsCount(e, tail, name);
      CountConcat(ArgMentions(rest, tail), Mentions(e, tail), name);
    }
  }

  lemma {:induction false} RuleMentionsCount(r: Rule, tail: string, name: string)
    requires name != tail
    ensures Tsort.Occurrences(RuleMentions(r, tail), name) == RuleRefs(r, name)
  {
    ArgMentionsCount(r.args, tail, name);
    MentionsCount(r.when, tail, name);
    CountConcat(ArgMentions(r.args, tail), Mentions(r.when, tail), name);
  }

  lemma {:induction false} CountMember(xs: seq<string>, x: string)
    ensures Tsort.Occurrences(xs, x) > 0 <==> x in xs
  {
    if xs != [] {
      var rest := xs[..|xs| - 1];
      CountMember(rest, x);
      assert xs == rest + [xs[|xs| - 1]];
    }
  }

  /** A rule mentions another rule exactly when it refers to it. */
  lemma {:induction false} MentionsAreRefs(r: Rule, tail: string, name: string)
    requires name != tail
    ensures name in RuleMentions(r, tail) <==> 0 < RuleRefs(r, name)
  {
    RuleMentionsCount(r, tail, name);
    CountMember(RuleMentions(r, tail), name);
  }

  // ---- The dependency arcs -------------------------------------------------------------------------

  function ArcsFrom(subject: string, names: seq<string>): Arcs {
    seq(|names|, i requires 0 <= i < |names| => Tsort.Arc(subject, names[i]))
  }

  function FileArcs(rules: seq<Rule>, tail: string): Arcs {
    if rules == [] then []
    else
      var r := rules[|rules| - 1];
      FileArcs(rules[..|rules| - 1], tail) + ArcsFrom(r.name, RuleMentions(r, tail))
  }

  ghost predicate Mentioned(rules: seq<Rule>, tail: string, s: string, t: string) {
    exists k :: 0 <= k < |rules| && rules[k].name == s && t in RuleMentions(rules[k], tail)
  }

  lemma {:induction false} FileArcsMentioned(rules: seq<Rule>, tail: string, s: string, t: string)
    ensures Tsort.Arc(s, t) in FileArcs(rules, tail) <==> Mentioned(rules, tail, s, t)
  {
    if rules != [] {
      var rest, r := rules[..|rules| - 1], rules[|rules| - 1];
      FileArcsMentioned(rest, tail, s, t);
      var last := ArcsFrom(r.name, RuleMentions(r, tail));
      assert Tsort.Arc(s, t) in last <==> r.name == s && t in RuleMentions(r, tail) by {
        if r.name == s && t in RuleMentions(r, tail) {
          var i :| 0 <= i < |RuleMentions(r, tail)| && RuleMentions(r, tail)[i] == t;
          assert last[i] == Tsort.Arc(s, t);
        }
      }
      assert rules == rest + [r];
      assert Mentioned(rules, tail, s, t) <==> Mentioned(rest, tail, s, t) || (r.name == s && t in RuleMentions(r, tail));
    }
  }

  // ---- What the parser accepts ---------------------------------------------------------------------

  /** The lexer gives every name one role, a rule is called once, and the tail is not a rule. */
  ghost predicate Lexed(rules: seq<Rule>, tail: string) {
    && DistinctNames(rules)
    && !Named(rules, tail)
    && forall k :: 0 <= k < |rules| ==> RuleRefs(rules[k], tail) == 0
  }

  ghost predicate RefersToItself(rules: seq<Rule>) {
    exists k :: 0 <= k < |rules| && 0 < RuleRefs(rules[k], rules[k].name)
  }

  ghost predicate TooManyRefs(rules: seq<Rule>) {
    exists name :: RefCount(rules, name) > 255
  }

  /** Count a reference in the eight-bit counter of its rule, and refuse a full counter or a self-reference. */
  method Refer(subject: string, name: string, tail: string, depends: Arcs, refs: map<string, nat>)
      returns (ok: bool, depends': Arcs, refs': map<string, nat>)
    ensures ok <==> name == tail || (Tsort.Get(refs, name) != MAX_REFS && name != subject)
    ensures depends' == depends + [Tsort.Arc(subject, name)]
    ensures ok ==> forall x :: Tsort.Get(refs', x) == Tsort.Get(refs, x) + if x == name && x != tail then 1 else 0
  {
    depends', refs' := depends + [Tsort.Arc(subject, name)], refs;
    if name == tail {
      return true, depends', refs';
    }
    if Tsort.Get(refs, name) == MAX_REFS {
      return false, depends', refs';
    }
    refs' := refs[name := Tsort.Get(refs, name) + 1];
    ok := name != subject;
  }

  /** References counted when `j` mentions of rule `k` have been read. */
  ghost function CountedSoFar(rules: seq<Rule>, tail: string, k: nat, j: nat, name: string): nat
    requires k < |rules| && j <= |RuleMentions(rules[k], tail)|
  {
    RefCount(rules[..k], name) + Tsort.Occurrences(RuleMentions(rules[k], tail)[..j], name)
  }

  lemma {:induction false} CountedBound(rules: seq<Rule>, tail: string, k: nat, j: nat, name: string)
    requires k < |rules| && j <= |RuleMentions(rules[k], tail)| && name != tail
    ensures CountedSoFar(rules, tail, k, j, name) <= RefCount(rules, name)
    ensures j < |RuleMentions(rules[k], tail)| ==>
      CountedSoFar(rules, tail, k, j + 1, name)
        == CountedSoFar(rules, tail, k, j, name) + if RuleMentions(rules[k], tail)[j] == name then 1 else 0
  {
    var ms := RuleMentions(rules[k], tail);
    Tsort.CountPrefix(ms, j, name);
    RuleMentionsCount(rules[k], tail, name);
    RefCountPrefix(rules, k, name);
    if j < |ms| {
      assert ms[..j + 1] == ms[..j] + [ms[j]];
      Tsort.CountAppend(ms[..j], name, ms[j]);
    }
  }

  lemma {:induction false} CountedAll(rules: seq<Rule>, tail: string, k: nat, name: string)
    requires k < |rules| && name != tail
    ensures CountedSoFar(rules, tail, k, 0, name) == RefCount(rules[..k], name)
    ensures CountedSoFar(rules, tail, k, |RuleMentions(rules[k], tail)|, name) == RefCount(rules[..k + 1], name)
  {
    var ms := RuleMentions(rules[k], tail);
    assert ms[..|ms|] == ms && rules[..k + 1][..k] == rules[..k];
    RuleMentionsCount(rules[k], tail, name);
  }

  /** What reading the mentions of one rule keeps. */
  ghost predicate Referring(rules: seq<Rule>, tail: string, k: nat, j: nat, refs: map<string, nat>)
    requires k < |rules| && j <= |RuleMentions(rules[k], tail)|
  {
    && (forall x :: x != tail ==> Tsort.Get(refs, x) == CountedSoFar(rules, tail, k, j, x))
    && (forall x :: Tsort.Get(refs, x) <= MAX_REFS)
    && rules[k].name !in RuleMentions(rules[k], tail)[..j]
  }

  lemma {:induction false} ReferringStart(rules: seq<Rule>, tail: string, k: nat, refs: map<string, nat>)
    requires k < |rules|
    requires forall x :: x != tail ==> Tsort.Get(refs, x) == RefCount(rules[..k], x)
    requires forall x :: Tsort.Get(refs, x) <= MAX_REFS
    ensures Referring(rules, tail, k, 0, refs)
  {
    forall x | x != tail ensures CountedSoFar(rules, tail, k, 0, x) == RefCount(rules[..k], x) {
      CountedAll(rules, tail, k, x);
    }
  }

  lemma {:induction false} ReferringNext(rules: seq<Rule>, tail: string, k: nat, j: nat, refs: map<string, nat>, refs': map<string, nat>)
    requires k < |rules| && j < |RuleMentions(rules[k], tail)| && Referring(rules, tail, k, j, refs)
    requires var name := RuleMentions(rules[k], tail)[j];
      && name != rules[k].name && (name == tail || Tsort.Get(refs, name) != MAX_REFS)
      && forall x :: Tsort.Get(refs', x) == Tsort.Get(refs, x) + if x == name && x != tail then 1 else 0
    ensures Referring(rules, tail, k, j + 1, refs')
  {
    var ms := RuleMentions(rules[k], tail);
    assert ms[..j + 1] == ms[..j] + [ms[j]];
    forall x | x != tail ensures Tsort.Get(refs', x) == CountedSoFar(rules, tail, k, j + 1, x) {
      CountedBound(rules, tail, k, j, x);
    }
  }

  lemma {:induction false} ReferringEnd(rules: seq<Rule>, tail: string, k: nat, refs: map<string, nat>)
    requires k < |rules| && Lexed(rules, tail) && Referring(rules, tail, k, |RuleMentions(rules[k], tail)|, refs)
    ensures forall x :: x != tail ==> Tsort.Get(refs, x) == RefCount(rules[..k + 1], x)
    ensures RuleRefs(rules[k], rules[k].name) == 0
  {
    var ms := RuleMentions(rules[k], tail);
    forall x | x != tail ensures Tsort.Get(refs, x) == RefCount(rules[..k + 1], x) {
      CountedAll(rules, tail, k, x);
    }
    assert ms[..|ms|] == ms;
    assert Named(rules, rules[k].name);
    MentionsAreRefs(rules[k], tail, rules[k].name);
  }

  /** A refused reference is one too many, or one of a rule to itself. */
  lemma {:induction false} RefusedReference(rules: seq<Rule>, tail: string, k: nat, j: nat, refs: map<string, nat>)
    requires k < |rules| && j < |RuleMentions(rules[k], tail)| && Lexed(rules, tail) && Referring(rules, tail, k, j, refs)
    requires var name := RuleMentions(rules[k], tail)[j];
      name != tail && (name == rules[k].name || Tsort.Get(refs, name) == MAX_REFS)
    ensures RefersToItself(rules) || TooManyRefs(rules)
  {
    var name := RuleMentions(rules[k], tail)[j];
    if name == rules[k].name {
      MentionsAreRefs(rules[k], tail, name);
    } else {
      CountedBound(rules, tail, k, j, name);
      CountedBound(rules, tail, k, j + 1, name);
      assert RefCount(rules, name) > MAX_REFS;
    }
  }

  /** The references of one rule. */
  method ReferAll(rules: seq<Rule>, tail: string, k: nat, depends: Arcs, refs: map<string, nat>)
      returns (ok: bool, depends': Arcs, refs': map<string, nat>)
    requires k < |rules| && Lexed(rules, tail)
    requires forall x :: x != tail ==> Tsort.Get(refs, x) == RefCount(rules[..k], x)
    requires forall x :: Tsort.Get(refs, x) <= MAX_REFS
    ensures ok ==> depends' == depends + ArcsFrom(rules[k].name, RuleMentions(rules[k], tail))
    ensures ok ==> forall x :: x != tail ==> Tsort.Get(refs', x) == RefCount(rules[..k + 1], x)
    ensures ok ==> forall x :: Tsort.Get(refs', x) <= MAX_REFS
    ensures ok ==> RuleRefs(rules[k], rules[k].name) == 0
    ensures !ok ==> RefersToItself(rules) || TooManyRefs(rules)
  {
    var ms, subject := RuleMentions(rules[k], tail), rules[k].name;
    depends', refs' := depends, refs;
    ReferringStart(rules, tail, k, refs);
    for j := 0 to |ms|
      invariant depends' == depends + ArcsFrom(subject, ms[..j])
      invariant Referring(rules, tail, k, j, refs')
    {
      ghost var before := refs';
      assert Named(rules, subject);
      ok, depends', refs' := Refer(subject, ms[j], tail, depends', refs');
      if !ok {
        RefusedReference(rules, tail, k, j, before);
        return;
      }
      ReferringNext(rules, tail, k, j, before, refs');
      assert ArcsFrom(subject, ms[..j + 1]) == ArcsFrom(subject, ms[..j]) + [Tsort.Arc(subject, ms[j])];
    }
    assert ms[..|ms|] == ms;
    ReferringEnd(rules, tail, k, refs');
    ok := true;
  }

  /** Reading the whole file: refused exactly on a self-reference or a reference too many. */
  method ReadReferences(rules: seq<Rule>, tail: string) returns (ok: bool, depends: Arcs, refs: map<string, nat>)
    requires Lexed(rules, tail)
    ensures ok <==> !RefersToItself(rules) && !TooManyRefs(rules)
    ensures ok ==> depends == FileArcs(rules, tail)
    ensures ok ==> forall x :: x != tail ==> Tsort.Get(refs, x) == RefCount(rules, x)
  {
    depends, refs := [], map[];
    for k := 0 to |rules|
      invariant depends == FileArcs(rules[..k], tail)
      invariant forall x :: x != tail ==> Tsort.Get(refs, x) == RefCount(rules[..k], x)
      invariant forall x :: Tsort.Get(refs, x) <= MAX_REFS
      invariant forall j :: 0 <= j < k ==> RuleRefs(rules[j], rules[j].name) == 0
    {
      ok, depends, refs := ReferAll(rules, tail, k, depends, refs);
      if !ok {
        return;
      }
      assert rules[..k + 1][..k] == rules[..k];
    }
    assert rules[..|rules|] == rules;
    NoRefsToTail(rules, tail);
    assert forall x :: x != tail ==> RefCount(rules, x) == Tsort.Get(refs, x) <= MAX_REFS;
    ok := true;
  }

  lemma {:induction false} NoRefsToTail(rules: seq<Rule>, tail: string)
    requires forall k :: 0 <= k < |rules| ==> RuleRefs(rules[k], tail) == 0
    ensures RefCount(rules, tail) == 0
  {
    if rules != [] {
      NoRefsToTail(rules[..|rules| - 1], tail);
    }
  }

  // ---- Unreferenced rules --------------------------------------------------------------------------

  /** find_unreferenced_fire passes over a call of the command "true". */
  ghost predicate Unreferenced(rules: seq<Rule>, name: string) {
    RefCount(rules, name) == 0 && exists k :: 0 <= k < |rules| && rules[k].name == name && !rules[k].builtin
  }

  method FindUnreferenced(rules: seq<Rule>, tail: string, refs: map<string, nat>) returns (found: set<string>)
    requires Lexed(rules, tail)
    requires forall x :: x != tail ==> Tsort.Get(refs, x) == RefCount(rules, x)
    ensures forall x :: x in found <==> Unreferenced(rules, x)
  {
    found := {};
    for k := 0 to |rules|
      invariant forall x :: x in found <==>
        RefCount(rules, x) == 0 && exists j :: 0 <= j < k && rules[j].name == x && !rules[j].builtin
    {
      assert Named(rules, rules[k].name);
      if !rules[k].builtin && Tsort.Get(refs, rules[k].name) == 0 {
        found := found + {rules[k].name};
      }
    }
  }

  ghost predicate SelfArcs(arcs: Arcs, names: set<string>) {
    forall a :: a in arcs <==> a.source == a.target && a.source in names
  }

  /** The arcs "n n", in whatever order the names come. */
  method AddSelfArcs(names: set<string>) returns (arcs: Arcs)
    ensures SelfArcs(arcs, names)
  {
    arcs := [];
    var rest := names;
    while rest != {}
      invariant rest <= names && SelfArcs(arcs, names - rest)
    {
      var n :| n in rest;
      rest := rest - {n};
      arcs := arcs + [Tsort.Arc(n, n)];
    }
  }

  /** Self-arcs add nodes, and change neither the edges nor the cycles. */
  lemma {:induction false} SelfArcsAddNoEdge(arcs: Arcs, self: Arcs, names: set<string>, s: string, t: string)
    requires SelfArcs(self, names)
    ensures Tsort.IsEdge(arcs + self, s, t) <==> Tsort.IsEdge(arcs, s, t)
  {
  }

  lemma {:induction false} SameCycle(a: Arcs, b: Arcs, p: seq<string>)
    requires forall s, t :: Tsort.IsEdge(a, s, t) <==> Tsort.IsEdge(b, s, t)
    ensures Tsort.Cycle(a, p) ==> Tsort.Cycle(b, p)
  {
  }

  lemma {:induction false} SelfArcsAddNoCycle(arcs: Arcs, self: Arcs, names: set<string>)
    requires SelfArcs(self, names)
    ensures Tsort.Cyclic(arcs + self) <==> Tsort.Cyclic(arcs)
  {
    forall s, t ensures Tsort.IsEdge(arcs + self, s, t) <==> Tsort.IsEdge(arcs, s, t) {
      SelfArcsAddNoEdge(arcs, self, names, s, t);
    }
    forall p ensures Tsort.Cycle(arcs + self, p) <==> Tsort.Cycle(arcs, p) {
      SameCycle(arcs, arcs + self, p);
      SameCycle(arcs + self, arcs, p);
    }
  }

  // ---- The reversed order --------------------------------------------------------------------------

  /** Every target stands before its source. */
  ghost predicate TargetsFirst(arcs: Arcs, order: seq<string>) {
    forall i, t :: 0 <= i < |order| && Tsort.IsEdge(arcs, order[i], t) ==> t in order[..i]
  }

  ghost predicate IsReverse<T>(xs: seq<T>, ys: seq<T>) {
    |xs| == |ys| && forall i {:trigger ys[i]} :: 0 <= i < |xs| ==> ys[i] == xs[|xs| - 1 - i]
  }

  method ReverseInPlace(order: array<string>)
    modifies order
    ensures IsReverse(old(order[..]), order[..])
  {
    if order.Length == 0 {
      return;
    }
    var i, j := 0, order.Length - 1;
    while i < j
      invariant 0 <= i && i + j == order.Length - 1 && i <= j + 1
      invariant forall k :: 0 <= k < order.Length ==>
        order[k] == if i <= k <= j then old(order[k]) else old(order[order.Length - 1 - k])
    {
      order[i], order[j] := order[j], order[i];
      i, j := i + 1, j - 1;
    }
  }

  lemma {:induction false} ReverseMembers(xs: seq<string>, ys: seq<string>, x: string)
    requires IsReverse(xs, ys)
    ensures x in xs <==> x in ys
  {
    if x in xs {
      var i :| 0 <= i < |xs| && xs[i] == x;
      assert ys[|xs| - 1 - i] == x;
    }
  }

  lemma {:induction false} ReversedOrder(arcs: Arcs, order: seq<string>, rev: seq<string>)
    requires Tsort.TopologicalOrder(arcs, order) && IsReverse(order, rev)
    ensures TargetsFirst(arcs, rev)
    ensures forall x :: x in rev <==> x in Tsort.Nodes(arcs)
    ensures Distinct(rev)
  {
    forall x ensures x in rev <==> x in Tsort.Nodes(arcs) {
      ReverseMembers(order, rev, x);
    }
    forall i, t | 0 <= i < |rev| && Tsort.IsEdge(arcs, rev[i], t) ensures t in rev[..i] {
      Tsort.EdgeNodes(arcs, rev[i], t);
      var j :| 0 <= j < |order| && order[j] == t;
      assert rev[i] in order[..j];
      var m :| 0 <= m < j && order[..j][m] == rev[i];
      assert order[m] == order[|order| - 1 - i];
      assert m == |order| - 1 - i;
      assert rev[..i][|order| - 1 - j] == t;
    }
  }

  // ---- Looking the names up ------------------------------------------------------------------------

  /** call2ast or query2ast: the rule called under a name. */
  method RuleNamed(rules: seq<Rule>, name: string) returns (r: Option<Rule>)
    ensures r.Some? <==> Named(rules, name)
    ensures r.Some? ==> r.value in rules && r.value.name == name
  {
    for k := 0 to |rules|
      invariant forall j :: 0 <= j < k ==> rules[j].name != name
    {
      if rules[k].name == name {
        return Some(rules[k]);
      }
    }
    r := None;
  }

  /** What compile's loop has found so far: one rule for each name before `i` but the tail. */
  ghost predicate Found(rules: seq<Rule>, tail: string, order: seq<string>, i: nat, prog: seq<Rule>) {
    && i <= |order|
    && (forall k :: 0 <= k < |prog| ==> prog[k] in rules && prog[k].name in order[..i])
    && (forall x :: x in order[..i] && x != tail ==> Named(prog, x))
    && DistinctNames(prog)
    && InOrder(prog)
  }

  lemma {:induction false} FoundTail(rules: seq<Rule>, tail: string, order: seq<string>, i: nat, prog: seq<Rule>)
    requires Found(rules, tail, order, i, prog) && i < |order| && order[i] == tail
    ensures Found(rules, tail, order, i + 1, prog)
  {
    assert order[..i + 1] == order[..i] + [tail];
  }

  lemma {:induction false} InOrderAppend(prog: seq<Rule>, r: Rule)
    requires InOrder(prog) && forall name :: 0 < RuleRefs(r, name) ==> Named(prog, name)
    ensures InOrder(prog + [r])
  {
    var more := prog + [r];
    forall k, name | 0 <= k < |more| && 0 < RuleRefs(more[k], name) ensures Named(more[..k], name) {
      if k < |prog| {
        assert more[..k] == prog[..k];
      } else {
        assert more[..k] == prog;
      }
    }
  }

  lemma {:induction false} NamedAppend(prog: seq<Rule>, r: Rule, x: string)
    ensures Named(prog + [r], x) <==> Named(prog, x) || r.name == x
  {
    var more := prog + [r];
    assert more[|prog|] == r;
    if Named(prog, x) {
      var k :| 0 <= k < |prog| && prog[k].name == x;
      assert more[k].name == x;
    }
  }

  lemma {:induction false} FoundNext(rules: seq<Rule>, tail: string, order: seq<string>, i: nat, prog: seq<Rule>, r: Rule)
    requires Found(rules, tail, order, i, prog) && i < |order| && order[i] == r.name && r in rules && r.name != tail
    requires order[i] !in order[..i]
    requires forall name :: 0 < RuleRefs(r, name) ==> name != tail && name in order[..i]
    ensures Found(rules, tail, order, i + 1, prog + [r])
  {
    var more := prog + [r];
    assert order[..i + 1] == order[..i] + [r.name];
    InOrderAppend(prog, r);
    forall x | x in order[..i + 1] && x != tail ensures Named(more, x) {
      NamedAppend(prog, r, x);
    }
  }

  lemma {:induction false} RefsComeBefore(rules: seq<Rule>, tail: string, arcs: Arcs, order: seq<string>, i: nat, r: Rule, name: string)
    requires Lexed(rules, tail) && !RefersToItself(rules)
    requires forall s, t :: Tsort.IsEdge(arcs, s, t) <==> Tsort.IsEdge(FileArcs(rules, tail), s, t)
    requires TargetsFirst(arcs, order) && i < |order| && order[i] == r.name && r in rules && 0 < RuleRefs(r, name)
    ensures name != tail && name in order[..i]
  {
    var k :| 0 <= k < |rules| && rules[k] == r;
    assert name != r.name && name != tail;
    MentionsAreRefs(r, tail, name);
    assert Mentioned(rules, tail, r.name, name);
    FileArcsMentioned(rules, tail, r.name, name);
    assert Tsort.IsEdge(arcs, order[i], name);
  }

  /** Compile's loop over depend_order, up to the call of the recursive compile. */
  method LookUp(rules: seq<Rule>, tail: string, arcs: Arcs, order: seq<string>) returns (missing: Option<string>, prog: seq<Rule>)
    requires Lexed(rules, tail) && !RefersToItself(rules)
    requires forall s, t :: Tsort.IsEdge(arcs, s, t) <==> Tsort.IsEdge(FileArcs(rules, tail), s, t)
    requires TargetsFirst(arcs, order)
    requires Distinct(order)
    ensures missing.None? <==> forall x :: x in order && x != tail ==> Named(rules, x)
    ensures missing.Some? ==> missing.value in order && missing.value != tail && !Named(rules, missing.value)
    ensures missing.None? ==> Found(rules, tail, order, |order|, prog)
  {
    prog := [];
    for i := 0 to |order|
      invariant Found(rules, tail, order, i, prog)
      invariant forall x :: x in order[..i] && x != tail ==> Named(rules, x)
    {
      assert order[..i + 1] == order[..i] + [order[i]];
      if order[i] == tail {
        FoundTail(rules, tail, order, i, prog);
        continue;
      }
      var r := RuleNamed(rules, order[i]);
      if r.None? {
        return Some(order[i]), prog;
      }
      forall name | 0 < RuleRefs(r.value, name) ensures name != tail && name in order[..i] {
        RefsComeBefore(rules, tail, arcs, order, i, r.value, name);
      }
      FoundNext(rules, tail, order, i, prog, r.value);
      prog := prog + [r.value];
    }
    assert order[..|order|] == order;
    missing := None;
  }

  // ---- Which rules are compiled --------------------------------------------------------------------

  /** A call of "true" that mentions nothing and that nothing refers to: no arc names it. */
  ghost predicate Idle(rules: seq<Rule>, tail: string, r: Rule) {
    r.builtin && RuleMentions(r, tail) == [] && RefCount(rules, r.name) == 0
  }

  lemma {:induction false} NodesAre(arcs: Arcs, n: string)
    ensures n in Tsort.Nodes(arcs) <==> exists a :: a in arcs && (a.source == n || a.target == n)
  {
    if arcs != [] {
      var rest, a := arcs[..|arcs| - 1], arcs[|arcs| - 1];
      NodesAre(rest, n);
      assert arcs == rest + [a];
      if a.source == n || a.target == n {
        assert a in arcs;
      }
    }
  }

  lemma {:induction false} CountedIsMentioned(rules: seq<Rule>, tail: string, name: string)
    requires name != tail
    ensures 0 < RefCount(rules, name) <==> exists k :: 0 <= k < |rules| && name in RuleMentions(rules[k], tail)
  {
    if rules != [] {
      var rest, r := rules[..|rules| - 1], rules[|rules| - 1];
      CountedIsMentioned(rest, tail, name);
      MentionsAreRefs(r, tail, name);
      if 0 < RefCount(rest, name) {
        var k :| 0 <= k < |rest| && name in RuleMentions(rest[k], tail);
        assert name in RuleMentions(rules[k], tail);
      }
    }
  }

  /** A name other than the tail is a node exactly when it is referred to, or its rule is not idle. */
  lemma {:induction false} NodeNames(rules: seq<Rule>, tail: string, self: Arcs, names: set<string>, n: string)
    requires Lexed(rules, tail) && SelfArcs(self, names) && n != tail
    requires forall x :: x in names <==> Unreferenced(rules, x)
    ensures n in Tsort.Nodes(FileArcs(rules, tail) + self) <==>
      0 < RefCount(rules, n) || exists k :: 0 <= k < |rules| && rules[k].name == n && !Idle(rules, tail, rules[k])
  {
    var all := FileArcs(rules, tail) + self;
    NodesAre(all, n);
    CountedIsMentioned(rules, tail, n);
    if n in Tsort.Nodes(all) {
      var a :| a in all && (a.source == n || a.target == n);
      if a in self {
        assert Unreferenced(rules, n);
      } else {
        FileArcsMentioned(rules, tail, a.source, a.target);
      }
    }
    if 0 < RefCount(rules, n) {
      var k :| 0 <= k < |rules| && n in RuleMentions(rules[k], tail);
      assert Mentioned(rules, tail, rules[k].name, n);
      FileArcsMentioned(rules, tail, rules[k].name, n);
      assert Tsort.Arc(rules[k].name, n) in all;
    } else if k :| 0 <= k < |rules| && rules[k].name == n && !Idle(rules, tail, rules[k]) {
      if rules[k].builtin {
        var t := RuleMentions(rules[k], tail)[0];
        assert Mentioned(rules, tail, n, t);
        FileArcsMentioned(rules, tail, n, t);
        assert Tsort.Arc(n, t) in all;
      } else {
        assert Unreferenced(rules, n);
        assert Tsort.Arc(n, n) in self;
      }
    }
  }

  lemma {:induction false} SameName(rules: seq<Rule>, r: Rule, k: nat)
    requires DistinctNames(rules) && k < |rules| && r in rules && r.name == rules[k].name
    ensures r == rules[k]
  {
    var j :| 0 <= j < |rules| && rules[j] == r;
    assert j == k;
  }

  ghost predicate Uncalled(rules: seq<Rule>, name: string) {
    0 < RefCount(rules, name) && !Named(rules, name)
  }

  /** The looked-up program holds exactly the rules that are not idle. */
  lemma {:induction false} FoundExactly(rules: seq<Rule>, tail: string, self: Arcs, names: set<string>, order: seq<string>,
                    prog: seq<Rule>, r: Rule)
    requires Lexed(rules, tail) && SelfArcs(self, names)
    requires forall x :: x in names <==> Unreferenced(rules, x)
    requires forall x :: x in order <==> x in Tsort.Nodes(FileArcs(rules, tail) + self)
    requires Found(rules, tail, order, |order|, prog)
    ensures r in prog <==> r in rules && !Idle(rules, tail, r)
  {
    assert order[..|order|] == order;
    if r in prog || r in rules {
      assert r in rules;
      var k :| 0 <= k < |rules| && rules[k] == r;
      assert Named(rules, r.name);
      NodeNames(rules, tail, self, names, r.name);
      forall i | 0 <= i < |prog| && prog[i].name == r.name ensures prog[i] == r {
        SameName(rules, prog[i], k);
      }
      assert Named(prog, r.name) ==> r in prog;
      if r in prog {
        assert r.name in order;
        if j :| 0 <= j < |rules| && rules[j].name == r.name && !Idle(rules, tail, rules[j]) {
          assert j == k;
        }
      }
    }
  }

  lemma {:induction false} RefCountRemove(p: seq<Rule>, i: nat, name: string)
    requires i < |p|
    ensures RefCount(p, name) == RefCount(p[..i] + p[i + 1..], name) + RuleRefs(p[i], name)
  {
    var q := p[..i] + p[i + 1..];
    var rest := p[..|p| - 1];
    if i == |p| - 1 {
      assert q == rest;
    } else {
      RefCountRemove(rest, i, name);
      assert q[..|q| - 1] == rest[..i] + rest[i + 1..];
      assert q[|q| - 1] == p[|p| - 1];
    }
  }

  lemma {:induction false} DistinctRemove(p: seq<Rule>, i: nat, r: Rule)
    requires DistinctNames(p) && i < |p|
    ensures DistinctNames(p[..i] + p[i + 1..])
    ensures r in p[..i] + p[i + 1..] <==> r in p && r != p[i]
  {
    var q := p[..i] + p[i + 1..];
    if r in q {
      var j :| 0 <= j < |q| && q[j] == r;
      assert r == p[if j < i then j else j + 1];
    }
    if r in p && r != p[i] {
      var j :| 0 <= j < |p| && p[j] == r;
      assert q[if j < i then j else j - 1] == r;
    }
  }

  /** Reordering rules, and leaving out rules without references, keeps every count. */
  lemma {:induction false} CountsKept(p: seq<Rule>, q: seq<Rule>, name: string)
    requires DistinctNames(p) && DistinctNames(q)
    requires forall r :: r in p ==> r in q
    requires forall r :: r in q && r !in p ==> RuleRefs(r, name) == 0
    ensures RefCount(p, name) == RefCount(q, name)
    decreases |q|
  {
    if q == [] {
      assert multiset(p) == multiset{};
      assert |multiset(p)| == |p|;
    } else {
      var rest, r := q[..|q| - 1], q[|q| - 1];
      assert q == rest + [r];
      if r in p {
        var i :| 0 <= i < |p| && p[i] == r;
        var p' := p[..i] + p[i + 1..];
        RefCountRemove(p, i, name);
        forall x ensures DistinctNames(p') && (x in p' <==> x in p && x != r) {
          DistinctRemove(p, i, x);
        }
        forall x | x in rest && x !in p' ensures RuleRefs(x, name) == 0 {
          assert x != r;
        }
        CountsKept(p', rest, name);
      } else {
        CountsKept(p, rest, name);
      }
    }
  }

  lemma {:induction false} IdleRefersToNone(rules: seq<Rule>, tail: string, r: Rule, name: string)
    requires Lexed(rules, tail) && r in rules && Idle(rules, tail, r)
    ensures RuleRefs(r, name) == 0
  {
    var k :| 0 <= k < |rules| && rules[k] == r;
    if name != tail {
      RuleMentionsCount(r, tail, name);
    }
  }

  // ---- The whole path ------------------------------------------------------------------------------

  datatype Loaded = Refused | CycleFound | NeverInvoked(name: string) | Program(prog: seq<Rule>)

  /** A program in dependency order with the reference counts of the file and all its rules but the idle ones. */
  ghost predicate Ordering(rules: seq<Rule>, tail: string, prog: seq<Rule>) {
    && DistinctNames(prog) && InOrder(prog)
    && (forall r :: r in prog <==> r in rules && !Idle(rules, tail, r))
    && (forall name :: RefCount(prog, name) == RefCount(rules, name))
  }

  lemma {:induction false} FoundIsOrdering(rules: seq<Rule>, tail: string, self: Arcs, names: set<string>, order: seq<string>, prog: seq<Rule>)
    requires Lexed(rules, tail) && SelfArcs(self, names)
    requires forall x :: x in names <==> Unreferenced(rules, x)
    requires forall x :: x in order <==> x in Tsort.Nodes(FileArcs(rules, tail) + self)
    requires Found(rules, tail, order, |order|, prog)
    ensures Ordering(rules, tail, prog)
  {
    forall r ensures r in prog <==> r in rules && !Idle(rules, tail, r) {
      FoundExactly(rules, tail, self, names, order, prog, r);
    }
    forall name ensures RefCount(prog, name) == RefCount(rules, name) {
      forall r | r in rules && r !in prog ensures RuleRefs(r, name) == 0 {
        IdleRefersToNone(rules, tail, r, name);
      }
      CountsKept(prog, rules, name);
    }
  }

  lemma {:induction false} MissingIsUncalled(rules: seq<Rule>, tail: string, self: Arcs, names: set<string>, x: string)
    requires Lexed(rules, tail) && SelfArcs(self, names) && x != tail && !Named(rules, x)
    requires forall x :: x in names <==> Unreferenced(rules, x)
    ensures x in Tsort.Nodes(FileArcs(rules, tail) + self) <==> Uncalled(rules, x)
  {
    NodeNames(rules, tail, self, names, x);
  }

  /**
    A flow file is refused, has a cycle, refers to a rule that is never invoked, or becomes a program
    in dependency order: exactly when it refers too often or to itself, is cyclic, names an uncalled
    rule, or none of these.
   */
  method OrderRules(rules: seq<Rule>, tail: string) returns (r: Loaded)
    requires Lexed(rules, tail)
    ensures r.Refused? <==> RefersToItself(rules) || TooManyRefs(rules)
    ensures r.CycleFound? <==> !RefersToItself(rules) && !TooManyRefs(rules) && Tsort.Cyclic(FileArcs(rules, tail))
    ensures r.NeverInvoked? ==> Uncalled(rules, r.name)
    ensures r.Program? ==> Ordering(rules, tail, r.prog) && forall x :: !Uncalled(rules, x)
  {
    var ok, depends, refs := ReadReferences(rules, tail);
    if !ok {
      return Refused;
    }
    var names := FindUnreferenced(rules, tail, refs);
    var self := AddSelfArcs(names);
    var arcs := depends + self;
    SelfArcsAddNoCycle(depends, self, names);
    var order := Tsort.Tsort(arcs);
    if order.None? {
      return CycleFound;
    }
    var a := new string[|order.value|](i requires 0 <= i < |order.value| => order.value[i]);
    assert a[..] == order.value;
    ReverseInPlace(a);
    ReversedOrder(arcs, order.value, a[..]);
    forall s, t ensures Tsort.IsEdge(arcs, s, t) <==> Tsort.IsEdge(depends, s, t) {
      SelfArcsAddNoEdge(depends, self, names, s, t);
    }
    var missing, prog := LookUp(rules, tail, arcs, a[..]);
    forall x | x != tail && !Named(rules, x)
      ensures x in Tsort.Nodes(arcs) <==> Uncalled(rules, x)
    {
      MissingIsUncalled(rules, tail, self, names, x);
    }
    if missing.Some? {
      return NeverInvoked(missing.value);
    }
    NoRefsToTail(rules, tail);
    FoundIsOrdering(rules, tail, self, names, a[..], prog);
    r := Program(prog);
  }

  /** An ordered program compiles unless one of its counters is full. */
  lemma {:induction false} OrderedIsCompilable(rules: seq<Rule>, tail: string, prog: seq<Rule>)
    requires Lexed(rules, tail) && !TooManyRefs(rules) && Ordering(rules, tail, prog)
    ensures Parsed(prog)
    ensures Compilable(prog) <==> forall k :: 0 <= k < |rules| ==> (RefCount(rules, rules[k].name) + 1) % 256 != 0
  {
    hide RefCount, InOrder, RuleMentions, Lexed;
    assert forall k :: 0 <= k < |prog| ==> prog[k] in rules;
    if Compilable(prog) {
      forall k | 0 <= k < |rules| ensures (RefCount(rules, rules[k].name) + 1) % 256 != 0 {
        if RefCount(rules, rules[k].name) > 0 {
          assert rules[k] in prog;
        }
      }
    }
    if forall k :: 0 <= k < |rules| ==> (RefCount(rules, rules[k].name) + 1) % 256 != 0 {
      forall k | 0 <= k < |prog| ensures (RefCount(prog, prog[k].name) + 1) % 256 != 0 {
        assert prog[k] in rules;
      }
    }
  }

  /** Whatever order the sort picks, every rule gets the same record. */
  lemma {:induction false} AnyOrderMeansTheSame(w: World, n: nat, rules: seq<Rule>, tail: string, p: seq<Rule>, q: seq<Rule>, k: nat)
    requires Ordering(rules, tail, p) && Ordering(rules, tail, q) && k < |p|
    ensures p[k].name in EvalRules(w, n, p) && p[k].name in EvalRules(w, n, q)
    ensures EvalRules(w, n, p)[p[k].name] == EvalRules(w, n, q)[p[k].name]
  {
    OrderIrrelevant(w, n, p, q, k);
  }

  /** Parse, sort and compile: the networks that come out are correct, and each way to fail has its exact cause. */
  method CompileFile(rules: seq<Rule>, tail: string) returns (r: Loaded, c: Option<Compilation>)
    requires Lexed(rules, tail)
    ensures r.Refused? <==> RefersToItself(rules) || TooManyRefs(rules)
    ensures r.CycleFound? <==> !RefersToItself(rules) && !TooManyRefs(rules) && Tsort.Cyclic(FileArcs(rules, tail))
    ensures r.Program? <==>
      && !RefersToItself(rules) && !TooManyRefs(rules) && !Tsort.Cyclic(FileArcs(rules, tail))
      && forall x :: !Uncalled(rules, x)
    ensures c.Some? <==> r.Program? && forall k :: 0 <= k < |rules| ==> (RefCount(rules, rules[k].name) + 1) % 256 != 0
    ensures c.Some? ==> Ordering(rules, tail, r.prog) && Correct(c.value, r.prog)
  {
    r := OrderRules(rules, tail);
    c := None;
    if r.Program? {
      OrderedIsCompilable(rules, tail, r.prog);
      c := CompileAll(r.prog);
    }
  }

  // ---- Files at the edges --------------------------------------------------------------------------

  /** Two commands, of which the second has `n` arguments that are the exit status of the first. */
  function Crowd(n: nat): seq<Rule> {
    var always := Lit(BoolV(false, true));
    [Rule("a", false, [], always), Rule("b", false, Copies(Unary(CastString, Ref("a", ExitStatus)), n), always)]
  }

  function Copies(e: Expr, n: nat): seq<Expr> {
    if n == 0 then [] else Copies(e, n - 1) + [e]
  }

  lemma {:induction false} CopiesRefs(e: Expr, n: nat, name: string)
    requires Refs(e, name) <= 1
    ensures ArgRefs(Copies(e, n), name) == if Refs(e, name) == 1 then n else 0
  {
    if n > 0 {
      CopiesRefs(e, n - 1, name);
      assert Copies(e, n)[..|Copies(e, n)| - 1] == Copies(e, n - 1);
    }
  }

  lemma {:induction false} CrowdRefs(n: nat, name: string)
    ensures RuleRefs(Crowd(n)[0], name) == 0 && RuleRefs(Crowd(n)[1], name) == if name == "a" then n else 0
    ensures RefCount(Crowd(n), name) == if name == "a" then n else 0
  {
    CopiesRefs(Unary(CastString, Ref("a", ExitStatus)), n, name);
    assert Crowd(n)[..1][..0] == [];
    assert RefCount(Crowd(n)[..1], name) == 0;
  }

  /** References of one rule alone make no cycle. */
  lemma {:induction false} CrowdIsAcyclic(n: nat, tail: string)
    ensures !Tsort.Cyclic(FileArcs(Crowd(n), tail))
  {
    var arcs := FileArcs(Crowd(n), tail);
    assert RuleMentions(Crowd(n)[0], tail) == [];
    forall s, t ensures Tsort.IsEdge(arcs, s, t) ==> s == "b" {
      FileArcsMentioned(Crowd(n), tail, s, t);
    }
    Tsort.CycleGoesOn(arcs);
  }

  lemma {:induction false} CrowdIsLexed(n: nat, tail: string)
    requires tail != "a" && tail != "b"
    ensures Lexed(Crowd(n), tail) && !RefersToItself(Crowd(n))
  {
    CrowdRefs(n, tail);
    CrowdRefs(n, "a");
    CrowdRefs(n, "b");
    assert "a"[0] != "b"[0];
  }

  lemma {:induction false} CrowdCounts(n: nat)
    ensures TooManyRefs(Crowd(n)) <==> n > 255
    ensures RefCount(Crowd(n), Crowd(n)[0].name) == n && RefCount(Crowd(n), Crowd(n)[1].name) == 0
    ensures forall x :: !Uncalled(Crowd(n), x)
  {
    var rules := Crowd(n);
    forall name ensures RefCount(rules, name) == if name == "a" then n else 0 {
      CrowdRefs(n, name);
    }
    assert "a"[0] != "b"[0] && rules[0].name == "a" && Named(rules, "a");
    assert RefCount(rules, "a") == n;
  }

  /**
    With 255 references the parser is content and compile() fails: the counter of references and the outlet
    for the logger together do not fit eight bits.
   */
  method LoadCrowd(n: nat, tail: string) returns (r: Loaded, c: Option<Compilation>)
    requires tail != "a" && tail != "b"
    ensures r.Refused? <==> n > 255
    ensures r.Program? <==> n <= 255
    ensures c.Some? <==> n < 255
  {
    hide RefersToItself, TooManyRefs, Lexed, Uncalled, RefCount, Ordering, Correct;
    CrowdIsLexed(n, tail);
    CrowdCounts(n);
    CrowdIsAcyclic(n, tail);
    r, c := CompileFile(Crowd(n), tail);
  }

  function IdleFile(name: string): seq<Rule> {
    [Rule(name, true, [], Lit(BoolV(false, true)))]
  }

  lemma {:induction false} IdleRefs(name: string, x: string)
    ensures RefCount(IdleFile(name), x) == 0 && RuleRefs(IdleFile(name)[0], x) == 0
  {
    assert IdleFile(name)[..0] == [];
    assert RefCount(IdleFile(name)[..0], x) == 0;
  }

  lemma {:induction false} IdleFileIsAccepted(name: string, tail: string)
    requires name != tail
    ensures Lexed(IdleFile(name), tail) && !RefersToItself(IdleFile(name)) && !TooManyRefs(IdleFile(name))
    ensures forall x :: RefCount(IdleFile(name), x) == 0
  {
    forall x ensures RefCount(IdleFile(name), x) == 0 && RuleRefs(IdleFile(name)[0], x) == 0 {
      IdleRefs(name, x);
    }
  }

  lemma {:induction false} IdleIsLeftOut(name: string, tail: string, prog: seq<Rule>)
    requires Ordering(IdleFile(name), tail, prog)
    ensures prog == []
  {
    var rules := IdleFile(name);
    IdleRefs(name, name);
    assert RuleMentions(rules[0], tail) == [] && Idle(rules, tail, rules[0]);
    SomeMember(prog);
  }

  lemma {:induction false} SomeMember(prog: seq<Rule>)
    ensures prog == [] || exists r :: r in prog
  {
    if prog != [] {
      assert prog[0] in prog;
    }
  }

  /** A call of "true" alone in a file is accepted and never compiled. */
  method LoadIdle(name: string, tail: string) returns (r: Loaded, c: Option<Compilation>)
    requires name != tail
    ensures r == Program([]) && c.Some?
  {
    IdleFileIsAccepted(name, tail);
    IdleIsAcyclic(IdleFile(name)[0], tail);
    r, c := CompileFile(IdleFile(name), tail);
    hide Ordering, Correct, RefCount;
    if r.Program? && Ordering(IdleFile(name), tail, r.prog) {
      IdleIsLeftOut(name, tail, r.prog);
    }
  }

  lemma {:induction false} IdleIsAcyclic(r: Rule, tail: string)
    requires RuleMentions(r, tail) == []
    ensures !Tsort.Cyclic(FileArcs([r], tail))
  {
    forall s, t ensures !Tsort.IsEdge(FileArcs([r], tail), s, t) {
      FileArcsMentioned([r], tail, s, t);
    }
    Tsort.CycleGoesOn(FileArcs([r], tail));
  }
}
