/**
  The "rummy" values of flowd: SQL three-valued logic with a fourth value WAIT
  for an operand that has not arrived yet (flowd/flow.go).
 */
module Rummy {

  /** A boolean that has arrived: null, false or true in the SQL sense. */
  datatype Tri = Null | False | True

  datatype BinOp = And | Or

  /** SQL orders false below null below true; AND is the minimum, OR the maximum. */
  function Rank(t: Tri): int {
    match t
    case False => 0
    case Null => 1
    case True => 2
  }

  function Sql(op: BinOp, a: Tri, b: Tri): Tri {
    match op
    case And => if Rank(a) <= Rank(b) then a else b
    case Or => if Rank(a) <= Rank(b) then b else a
  }

  /** The bits the engine uses for rummy values. */
  const NIL := 0
  const WAIT := 1
  const NULL := 2
  const FALSE := 4
  const TRUE := 8

  const TABLE_SIZE := 137

  predicate IsRummy(r: nat) {
    r == WAIT || r == NULL || r == FALSE || r == TRUE
  }

  function Code(t: Tri): (r: nat)
    ensures IsRummy(r) && r != WAIT
  {
    match t
    case Null => NULL
    case False => FALSE
    case True => TRUE
  }

  function Decode(r: nat): (t: Tri)
    ensures IsRummy(r) && r != WAIT ==> Code(t) == r
  {
    if r == TRUE then True else if r == FALSE then False else Null
  }

  /** The values an operand in state `r` may still turn out to have. */
  ghost predicate MayBe(r: nat, t: Tri) {
    r == WAIT || r == Code(t)
  }

  /** No matter how the waiting operands turn out, the answer is `v`. */
  ghost predicate Forced(op: BinOp, l: nat, r: nat, v: Tri) {
    forall a, b :: MayBe(l, a) && MayBe(r, b) ==> Sql(op, a, b) == v
  }

  /**
    A table is right when every entry resolves exactly as early as the logic
    allows: it holds `v` if and only if `v` is already forced, and it holds
    WAIT if and only if nothing is forced yet.
   */
  ghost predicate RightTable(op: BinOp, table: seq<nat>) {
    && |table| == 137
    && (forall l: nat, r: nat :: IsRummy(l) && IsRummy(r) ==> Settled(op, l, r, table[16 * l + r]))
  }

  ghost predicate Settled(op: BinOp, l: nat, r: nat, entry: nat) {
    && IsRummy(entry)
    && (entry == NULL <==> Forced(op, l, r, Null))
    && (entry == FALSE <==> Forced(op, l, r, False))
    && (entry == TRUE <==> Forced(op, l, r, True))
  }

  lemma {:induction false} NoneForcedBoth(op: BinOp, l: nat, r: nat, a: Tri, b: Tri, a': Tri, b': Tri)
    requires MayBe(l, a) && MayBe(r, b) && MayBe(l, a') && MayBe(r, b')
    requires Sql(op, a, b) != Sql(op, a', b')
    ensures !Forced(op, l, r, Null) && !Forced(op, l, r, False) && !Forced(op, l, r, True)
  {
  }

  /** The AND table, filled in the order the engine's init() fills it. */
  method InitAnd() returns (and: seq<nat>)
    ensures Rows(And, and)
  {
    hide Rows;
    var lw, ln, lf, lt := 16 * WAIT, 16 * NULL, 16 * FALSE, 16 * TRUE;
    and := seq(TABLE_SIZE, _ => NIL);
    and := and[lf + WAIT := FALSE][lf + NULL := FALSE][lf + FALSE := FALSE][lf + TRUE := FALSE];
    and := and[lw + FALSE := FALSE][ln + FALSE := FALSE][lt + FALSE := FALSE];
    and := and[lt + WAIT := WAIT][lt + NULL := NULL][lt + TRUE := TRUE];
    and := and[lw + TRUE := WAIT][ln + TRUE := NULL];
    and := and[ln + NULL := NULL][ln + WAIT := WAIT];
    and := and[lw + NULL := WAIT][lw + WAIT := WAIT];
    AndRows(and);
  }

  lemma {:induction false} AndRows(and: seq<nat>)
    requires |and| == TABLE_SIZE
    requires and[17] == WAIT && and[18] == WAIT && and[20] == FALSE && and[24] == WAIT
    requires and[33] == WAIT && and[34] == NULL && and[36] == FALSE && and[40] == NULL
    requires and[65] == FALSE && and[66] == FALSE && and[68] == FALSE && and[72] == FALSE
    requires and[129] == WAIT && and[130] == NULL && and[132] == FALSE && and[136] == TRUE
    ensures Rows(And, and)
  {
  }

  /** The OR table, likewise. */
  method InitOr() returns (or: seq<nat>)
    ensures Rows(Or, or)
  {
    hide Rows;
    var lw, ln, lf, lt := 16 * WAIT, 16 * NULL, 16 * FALSE, 16 * TRUE;
    or := seq(TABLE_SIZE, _ => NIL);
    or := or[lt + WAIT := TRUE][lt + NULL := TRUE][lt + FALSE := TRUE][lt + TRUE := TRUE];
    or := or[lw + TRUE := TRUE][ln + TRUE := TRUE][lf + TRUE := TRUE];
    or := or[lf + WAIT := WAIT][lf + NULL := NULL][lf + FALSE := FALSE];
    or := or[lw + FALSE := WAIT][ln + FALSE := NULL];
    or := or[ln + WAIT := WAIT][ln + NULL := NULL];
    or := or[lw + NULL := WAIT][lw + WAIT := WAIT];
    OrRows(or);
  }

  lemma {:induction false} OrRows(or: seq<nat>)
    requires |or| == TABLE_SIZE
    requires or[17] == WAIT && or[18] == WAIT && or[20] == WAIT && or[24] == TRUE
    requires or[33] == WAIT && or[34] == NULL && or[36] == NULL && or[40] == TRUE
    requires or[65] == WAIT && or[66] == NULL && or[68] == FALSE && or[72] == TRUE
    requires or[129] == TRUE && or[130] == TRUE && or[132] == TRUE && or[136] == TRUE
    ensures Rows(Or, or)
  {
  }

  ghost predicate Rows(op: BinOp, table: seq<nat>) {
    |table| == TABLE_SIZE && Row(op, table, WAIT) && Row(op, table, NULL) && Row(op, table, FALSE) && Row(op, table, TRUE)
  }

  ghost predicate Row(op: BinOp, table: seq<nat>, l: nat)
    requires |table| == TABLE_SIZE && l <= TRUE
  {
    && table[16 * l + WAIT] == Entry(op, l, WAIT)
    && table[16 * l + NULL] == Entry(op, l, NULL)
    && table[16 * l + FALSE] == Entry(op, l, FALSE)
    && table[16 * l + TRUE] == Entry(op, l, TRUE)
  }

  /** What each entry must be, spelled out for one table. */
  function Entry(op: BinOp, l: nat, r: nat): nat {
    var decides := if op == And then FALSE else TRUE;
    if l == decides || r == decides then decides
    else if l == WAIT || r == WAIT then WAIT
    else Code(Sql(op, Decode(l), Decode(r)))
  }

  lemma {:induction false} EntrySettled(op: BinOp, l: nat, r: nat)
    requires IsRummy(l) && IsRummy(r)
    ensures Settled(op, l, r, Entry(op, l, r))
  {
    if Entry(op, l, r) == WAIT {
      var a := if l == WAIT then False else Decode(l);
      var b := if r == WAIT then False else Decode(r);
      var a' := if l == WAIT then True else Decode(l);
      var b' := if r == WAIT then True else Decode(r);
      NoneForcedBoth(op, l, r, a, b, a', b');
    } else {
      var v := Decode(Entry(op, l, r));
      var a := if l == WAIT then Null else Decode(l);
      var b := if r == WAIT then Null else Decode(r);
      assert MayBe(l, a) && MayBe(r, b) && Sql(op, a, b) == v;
    }
  }

  lemma {:induction false} AllSettled(op: BinOp, table: seq<nat>)
    requires Rows(op, table)
    ensures RightTable(op, table)
  {
    forall l: nat, r: nat | IsRummy(l) && IsRummy(r)
      ensures Settled(op, l, r, table[16 * l + r])
    {
      EntrySettled(op, l, r);
    }
  }

  /** One operand taken from a channel by wait_bool2's select. */
  datatype Operand = Operand(left: bool, t: Tri)

  /**
    What wait_bool2 makes of its operands in the order the select took them:
    it looks the pair up after every operand and stops looking at the first
    entry that is not WAIT; an operand taken later is drained unread.
   */
  function WaitFold(op: BinOp, taken: seq<Operand>, l: nat, r: nat): nat {
    if taken == [] then WAIT
    else
      var l' := if taken[0].left then Code(taken[0].t) else l;
      var r' := if taken[0].left then r else Code(taken[0].t);
      if Entry(op, l', r') != WAIT then Entry(op, l', r') else WaitFold(op, taken[1..], l', r')
  }

  /** Early resolution never changes the answer, whichever side arrives first. */
  lemma {:induction false} WaitFoldIsSql(op: BinOp, taken: seq<Operand>)
    requires |taken| == 2 && taken[0].left != taken[1].left
    ensures WaitFold(op, taken, WAIT, WAIT)
         == Code(if taken[0].left then Sql(op, taken[0].t, taken[1].t) else Sql(op, taken[1].t, taken[0].t))
  {
    var l := if taken[0].left then Code(taken[0].t) else WAIT;
    var r := if taken[0].left then WAIT else Code(taken[0].t);
    if Entry(op, l, r) == WAIT {
      assert taken[1..][0] == taken[1];
    }
  }

  /**
    wait_bool2 over one flow.  Each channel holds the one value of this flow and
    `leftFirst` says which the select takes first.  The answer is the SQL answer
    and each channel is read exactly once, the drain included.
   */
  method WaitBool2(op: BinOp, table: seq<nat>, left: Tri, right: Tri, leftFirst: bool)
      returns (next: nat, leftReads: nat, rightReads: nat)
    requires Rows(op, table)
    ensures next == Code(Sql(op, left, right))
    ensures leftReads == 1 && rightReads == 1
  {
    var lv, rv := WAIT, WAIT;
    leftReads, rightReads := 0, 0;
    next := WAIT;
    while next == WAIT
      invariant leftReads <= 1 && rightReads <= 1
      invariant lv == (if leftReads == 1 then Code(left) else WAIT)
      invariant rv == (if rightReads == 1 then Code(right) else WAIT)
      invariant next == WAIT || next == Code(Sql(op, left, right))
      invariant leftReads == 1 && rightReads == 1 ==> next != WAIT
      invariant next != WAIT ==> leftReads + rightReads > 0
      decreases 2 - leftReads - rightReads
    {
      if leftReads == 0 && (leftFirst || rightReads == 1) {
        lv := Code(left);
        leftReads := leftReads + 1;
      } else {
        rv := Code(right);
        rightReads := rightReads + 1;
      }
      next := table[16 * lv + rv];
    }
    if leftReads == 0 {
      leftReads := leftReads + 1;
    } else if rightReads == 0 {
      rightReads := rightReads + 1;
    }
  }
}
