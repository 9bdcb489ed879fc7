/**
  The logger of blob request records and its children (bio4d/brr.c).  It appends messages to the active log
  and, on one of 25 bytes, freezes the log under a new name for the child that asked to move it away.
 */
module BrrLogger {
  import opened Text
  import opened Fields

  type Message = string
  type Log = seq<Message>

  /** The sequence number in a frozen name is a ui16. */
  const NAMES := 65536

  /** "run/wrap-<pid>.fifo" and its null: the only message of this length. */
  const WRAP_SIZE := 25

  predicate AsksForWrap(m: Message) {
    |m| == WRAP_SIZE
  }

  function FifoPath(pid: nat): Message
    requires pid < Power10(10)
  {
    "run/wrap-" + Padded(pid, 10) + ".fifo" + [0 as char]
  }

  /** The stamp is a constant: the code prints the address of time(), not the time. */
  function FrozenPath(stamp: nat, number: nat): string
    requires number < NAMES
  {
    "spool/bio4d-" + Padded(stamp, 10) + "-" + Padded(number, 5) + ".brr"
  }

  lemma {:induction false} PathSizes(pid: nat, stamp: nat, number: nat)
    requires pid < Power10(10) && number < NAMES
    ensures |FifoPath(pid)| == WRAP_SIZE
    ensures |FrozenPath(stamp, number)| + 1 == 33
  {
  }

  /** Where the numbers stand in the two paths, and what stands around them. */
  lemma {:induction false} PathsRead(pid: nat, stamp: nat, number: nat)
    requires pid < Power10(10) && stamp < Power10(10) && number < 65536
    ensures var p := FifoPath(pid);
      |p| == 25 && p[..9] == "run/wrap-" && ReadDecimal(p[9..19]) == pid && p[19..24] == ".fifo" && p[24] == 0 as char
    ensures var p := FrozenPath(stamp, number);
      && |p| == 32 && p[..12] == "spool/bio4d-" && ReadDecimal(p[12..22]) == stamp
      && p[22] == '-' && ReadDecimal(p[23..28]) == number && p[28..] == ".brr"
  {
    hide Padded, ReadDecimal;
    assert number < Power10(5) by {
      assert Power10(1) == 10 && Power10(2) == 100 && Power10(3) == 1000 && Power10(4) == 10000;
    }
    PaddedReads(pid, 10);
    PaddedReads(stamp, 10);
    PaddedReads(number, 5);
    var p, q := FifoPath(pid), FrozenPath(stamp, number);
    assert p[9..19] == Padded(pid, 10) && q[12..22] == Padded(stamp, 10) && q[23..28] == Padded(number, 5);
  }

  lemma {:induction false} PathsDiffer(stamp: nat, m: nat, n: nat)
    requires m < 65536 && n < 65536 && FrozenPath(stamp, m) == FrozenPath(stamp, n)
    ensures m == n
  {
    var a, b := FrozenPath(stamp, m), FrozenPath(stamp, n);
    assert a[23..28] == Padded(m, 5) && b[23..28] == Padded(n, 5);
    assert Power10(5) == 100000 by {
      assert Power10(1) == 10 && Power10(2) == 100 && Power10(3) == 1000;
    }
    PaddedInjective(m, n, 5);
  }

  // ---- The logger ----------------------------------------------------------------------------------

  /** The logger's counter, the active log, and the frozen logs in spool/ by the number in their names. */
  datatype Spool = Spool(number: nat, active: Log, frozen: map<nat, Log>)

  function NextNumber(number: nat): nat {
    (number + 1) % NAMES
  }

  /** rename() replaces a file that has the new name. */
  function Freeze(s: Spool): Spool {
    Spool(NextNumber(s.number), [], s.frozen[NextNumber(s.number) := s.active])
  }

  function Handle(s: Spool, m: Message): Spool {
    if AsksForWrap(m) then Freeze(s) else s.(active := s.active + [m])
  }

  /** The logger process: its counter, and the files it writes. */
  class Logger {
    const stamp: nat
    var number: nat
    var active: Log
    var frozen: map<nat, Log>

    ghost function View(): Spool reads this {
      Spool(number, active, frozen)
    }

    constructor (stamp: nat)
      ensures View() == Spool(0, [], map[]) && this.stamp == stamp
    {
      this.stamp, number, active, frozen := stamp, 0, [], map[];
    }

    method AnswerWrap() returns (path: string)
      modifies this
      ensures View() == Freeze(old(View())) && path == FrozenPath(stamp, NextNumber(old(number)))
    {
      number := (number + 1) % NAMES;
      path := FrozenPath(stamp, number);
      frozen := frozen[number := active];
      active := [];
    }

    /** One turn of the request loop; a wrap request is answered with a path. */
    method Request(m: Message) returns (reply: Option<string>)
      modifies this
      ensures View() == Handle(old(View()), m)
      ensures reply == if AsksForWrap(m) then Some(FrozenPath(stamp, NextNumber(old(number)))) else None
    {
      if |m| == WRAP_SIZE {
        var path := AnswerWrap();
        return Some(path);
      }
      active := active + [m];
      reply := None;
    }
  }

  // ---- Children and runs ---------------------------------------------------------------------------

  /** A wrap child, named by its fifo; `k` is a history of which freeze answered it. */
  datatype Child =
    | Waiting
    | Told(name: nat, k: nat)
    | Digested(name: nat, k: nat, digested: Log)

  /**
    The pipe, the files, the children between their request and their rename, and histories: the messages
    served, the active logs at each freeze, and what each child digested and moved.
   */
  datatype Sys = Sys(pipe: seq<Message>, spool: Spool, children: map<Message, Child>,
                     served: seq<Message>, logs: seq<Log>, moved: map<nat, (Log, Log)>)

  datatype Step =
    | Send(m: Message)          // brr_send, or a child asking for a wrap
    | Serve                     // the logger takes one message
    | Digest(child: Message)    // the child opens the path it was told and digests the file
    | Rename(child: Message)    // the child moves the path into spool/wrap

  function Begin(): Sys {
    Sys([], Spool(0, [], map[]), map[], [], [], map[])
  }

  predicate Enabled(s: Sys, step: Step) {
    match step
    case Send(m) => AsksForWrap(m) ==> m !in s.children
    case Serve => s.pipe != []
    case Digest(c) => c in s.children && s.children[c].Told? && s.children[c].name in s.spool.frozen
    case Rename(c) => c in s.children && s.children[c].Digested? && s.children[c].name in s.spool.frozen
  }

  function Next(s: Sys, step: Step): Sys
    requires Enabled(s, step)
  {
    match step
    case Send(m) =>
      s.(pipe := s.pipe + [m], children := if AsksForWrap(m) then s.children[m := Waiting] else s.children)
    case Serve =>
      var m := s.pipe[0];
      var t := s.(pipe := s.pipe[1..], served := s.served + [m], spool := Handle(s.spool, m));
      if AsksForWrap(m) then
        t.(children := t.children[m := Told(NextNumber(s.spool.number), |s.logs|)], logs := s.logs + [s.spool.active])
      else t
    case Digest(c) =>
      var child := s.children[c];
      s.(children := s.children[c := Digested(child.name, child.k, s.spool.frozen[child.name])])
    case Rename(c) =>
      var child := s.children[c];
      s.(children := s.children - {c}, spool := s.spool.(frozen := s.spool.frozen - {child.name}),
         moved := s.moved[child.k := (child.digested, s.spool.frozen[child.name])])
  }

  /** The state after a run, if every step of it was enabled. */
  function After(run: seq<Step>): Option<Sys> {
    if run == [] then Some(Begin())
    else
      var before := After(run[..|run| - 1]);
      if before.Some? && Enabled(before.value, run[|run| - 1]) then Some(Next(before.value, run[|run| - 1])) else None
  }

  // ---- Records in pipe order -----------------------------------------------------------------------

  /** Messages cut at the wrap requests; the last piece is open. */
  function Batches(ms: seq<Message>): (b: seq<Log>)
    ensures |b| > 0
  {
    if ms == [] then [[]]
    else
      var b, m := Batches(ms[..|ms| - 1]), ms[|ms| - 1];
      if AsksForWrap(m) then b + [[]] else b[..|b| - 1] + [b[|b| - 1] + [m]]
  }

  function Records(ms: seq<Message>): seq<Message> {
    if ms == [] then [] else Records(ms[..|ms| - 1]) + if AsksForWrap(ms[|ms| - 1]) then [] else [ms[|ms| - 1]]
  }

  function Concat(logs: seq<Log>): seq<Message> {
    if logs == [] then [] else Concat(logs[..|logs| - 1]) + logs[|logs| - 1]
  }

  lemma {:induction false} ConcatAppend(logs: seq<Log>, last: Log)
    ensures Concat(logs + [last]) == Concat(logs) + last
  {
    assert (logs + [last])[..|logs|] == logs;
  }

  /** Cutting loses no record, repeats none, and keeps the order. */
  lemma {:induction false} BatchesKeepRecords(ms: seq<Message>)
    ensures Concat(Batches(ms)) == Records(ms)
  {
    if ms != [] {
      var less, m := ms[..|ms| - 1], ms[|ms| - 1];
      var b := Batches(less);
      BatchesKeepRecords(less);
      if AsksForWrap(m) {
        ConcatAppend(b, []);
      } else {
        ConcatAppend(b[..|b| - 1], b[|b| - 1]);
        ConcatAppend(b[..|b| - 1], b[|b| - 1] + [m]);
        assert b[..|b| - 1] + [b[|b| - 1]] == b;
      }
    } else {
      assert Batches(ms) == [[]] && Concat([[]]) == Concat([]) + [] by {
        ConcatAppend([], []);
      }
    }
  }

  ghost predicate BatchesOk(s: Sys) {
    Batches(s.served) == s.logs + [s.spool.active] && s.spool.number == |s.logs| % NAMES
  }

  lemma {:induction false} BatchesNext(ms: seq<Message>, m: Message, logs: seq<Log>, active: Log)
    requires Batches(ms) == logs + [active]
    ensures Batches(ms + [m]) == if AsksForWrap(m) then (logs + [active]) + [[]] else logs + [active + [m]]
  {
    assert (ms + [m])[..|ms|] == ms;
    assert (logs + [active])[..|logs|] == logs;
  }

  lemma {:induction false} NextOfCount(number: nat, count: nat)
    requires number == count % NAMES
    ensures NextNumber(number) == NextNumber(count)
  {
  }

  lemma {:induction false} ServedBatches(s: Sys)
    requires BatchesOk(s) && s.pipe != []
    ensures BatchesOk(Next(s, Serve))
  {
    var m, t := s.pipe[0], Next(s, Serve);
    BatchesNext(s.served, m, s.logs, s.spool.active);
    NextOfCount(s.spool.number, |s.logs|);
    assert t.served == s.served + [m];
  }

  lemma {:induction false} OtherBatches(s: Sys, step: Step)
    requires Enabled(s, step) && !step.Serve?
    ensures var t := Next(s, step); t.served == s.served && t.logs == s.logs
    ensures var t := Next(s, step); t.spool.active == s.spool.active && t.spool.number == s.spool.number
  {
  }

  lemma {:induction false} BatchesKept(s: Sys, step: Step)
    requires BatchesOk(s) && Enabled(s, step)
    ensures BatchesOk(Next(s, step))
  {
    if step.Serve? {
      ServedBatches(s);
    } else {
      OtherBatches(s, step);
    }
  }

  lemma {:induction false} EveryRunBatches(run: seq<Step>)
    requires After(run).Some?
    ensures BatchesOk(After(run).value)
  {
    if run != [] {
      EveryRunBatches(run[..|run| - 1]);
      BatchesKept(After(run[..|run| - 1]).value, run[|run| - 1]);
    } else {
      assert Begin().logs + [Begin().spool.active] == [[]];
    }
  }

  function Sent(run: seq<Step>): seq<Message> {
    if run == [] then []
    else Sent(run[..|run| - 1]) + if run[|run| - 1].Send? then [run[|run| - 1].m] else []
  }

  lemma {:induction false} ServedNext(s: Sys, step: Step)
    requires Enabled(s, step)
    ensures var t := Next(s, step); t.served + t.pipe == s.served + s.pipe + if step.Send? then [step.m] else []
  {
    if step.Serve? {
      assert s.pipe == [s.pipe[0]] + s.pipe[1..];
    }
  }

  lemma {:induction false} EveryRunServes(run: seq<Step>)
    requires After(run).Some?
    ensures var s := After(run).value; Sent(run) == s.served + s.pipe
  {
    if run != [] {
      EveryRunServes(run[..|run| - 1]);
      ServedNext(After(run[..|run| - 1]).value, run[|run| - 1]);
    }
  }

  /**
    In every run the frozen logs, the active log and the pipe hold each record sent exactly once, in the
    order sent; the k-th frozen log holds the records between the requests before and after it.
   */
  lemma {:induction false} EachRecordInOneLog(run: seq<Step>)
    requires After(run).Some?
    ensures var s := After(run).value;
      && Batches(s.served) == s.logs + [s.spool.active]
      && Records(Sent(run)) == Concat(s.logs) + s.spool.active + Records(s.pipe)
  {
    var s := After(run).value;
    EveryRunBatches(run);
    EveryRunServes(run);
    BatchesKeepRecords(s.served);
    ConcatAppend(s.logs, s.spool.active);
    RecordsConcat(s.served, s.pipe);
  }

  lemma {:induction false} RecordsConcat(a: seq<Message>, b: seq<Message>)
    ensures Records(a + b) == Records(a) + Records(b)
  {
    if b == [] {
      assert a + b == a;
    } else {
      assert (a + b)[..|a + b| - 1] == a + b[..|b| - 1];
      RecordsConcat(a, b[..|b| - 1]);
    }
  }

  // ---- The logger process over a whole input -------------------------------------------------------

  /** Without a child to move them, the newest 65536 frozen logs are the files on disk, each under its name. */
  ghost predicate NewestOnDisk(logs: seq<Log>, frozen: map<nat, Log>) {
    && (forall k: nat :: k < |logs| <= k + 65536 ==> NextNumber(k) in frozen && frozen[NextNumber(k)] == logs[k])
    && (forall p :: p in frozen ==> exists k: nat :: k < |logs| <= k + 65536 && p == NextNumber(k))
  }

  lemma {:induction false} NumbersRepeat(k: nat, n: nat)
    requires k < n <= k + NAMES
    ensures NextNumber(k) == NextNumber(n) <==> n == k + NAMES
  {
    SameNumber(n % NAMES, n, k);
  }

  lemma {:induction false} NewestFound(logs: seq<Log>, frozen: map<nat, Log>, active: Log, k: nat)
    requires NewestOnDisk(logs, frozen) && k <= |logs| < k + NAMES
    ensures var next := frozen[NextNumber(|logs|) := active];
      NextNumber(k) in next && next[NextNumber(k)] == (logs + [active])[k]
  {
    hide NextNumber;
    if k < |logs| {
      NumbersRepeat(k, |logs|);
    }
  }

  lemma {:induction false} OnlyNewest(logs: seq<Log>, frozen: map<nat, Log>, p: nat) returns (k: nat)
    requires NewestOnDisk(logs, frozen) && (p in frozen || p == NextNumber(|logs|))
    ensures k <= |logs| < k + NAMES && p == NextNumber(k)
  {
    hide NextNumber;
    k := |logs|;
    if p != NextNumber(|logs|) {
      k :| k < |logs| <= k + NAMES && p == NextNumber(k);
      NumbersRepeat(k, |logs|);
    }
  }

  lemma {:induction false} NewestNext(logs: seq<Log>, frozen: map<nat, Log>, number: nat, active: Log)
    requires NewestOnDisk(logs, frozen) && NextNumber(number) == NextNumber(|logs|)
    ensures NewestOnDisk(logs + [active], frozen[NextNumber(number) := active])
  {
    hide NextNumber;
    var more, next := logs + [active], frozen[NextNumber(number) := active];
    forall k: nat | k < |more| <= k + NAMES
      ensures NextNumber(k) in next && next[NextNumber(k)] == more[k]
    {
      NewestFound(logs, frozen, active, k);
    }
    forall p | p in next ensures exists k: nat :: k < |more| <= k + NAMES && p == NextNumber(k) {
      var k := OnlyNewest(logs, frozen, p);
      assert k < |more| <= k + NAMES;
    }
  }

  /** The paths answered, in the order of the freezes. */
  ghost predicate Answered(stamp: nat, replies: seq<string>, freezes: nat) {
    |replies| == freezes && forall k :: 0 <= k < freezes ==> replies[k] == FrozenPath(stamp, NextNumber(k))
  }

  /**
    The loop of the logger over any messages: the frozen logs and the active log hold the records in order
    and cut at the requests, the k-th request is told the path of the k-th frozen log, and under that path
    stands that log until 65536 freezes later.
   */
  method LogAll(stamp: nat, ms: seq<Message>) returns (l: Logger, ghost logs: seq<Log>, replies: seq<string>)
    ensures fresh(l) && Batches(ms) == logs + [l.active] && Records(ms) == Concat(logs) + l.active
    ensures NewestOnDisk(logs, l.frozen) && Answered(stamp, replies, |logs|)
  {
    hide NextNumber, FrozenPath, NewestOnDisk, Batches, Records, Concat;
    l := new Logger(stamp);
    logs, replies := [], [];
    NothingLogged();
    for i := 0 to |ms|
      invariant fresh(l) && l.stamp == stamp && Logged(ms[..i], logs, l.View())
      invariant Answered(stamp, replies, |logs|)
    {
      assert ms[..i + 1] == ms[..i] + [ms[i]];
      LoggedNext(ms[..i], ms[i], logs, l.View());
      if AsksForWrap(ms[i]) {
        logs := logs + [l.active];
      }
      var reply := l.Request(ms[i]);
      if reply.Some? {
        replies := replies + [reply.value];
      }
    }
    assert ms[..|ms|] == ms;
    BatchesKeepRecords(ms);
    ConcatAppend(logs, l.active);
  }

  /** After some messages. */
  ghost predicate Logged(ms: seq<Message>, logs: seq<Log>, s: Spool) {
    && Batches(ms) == logs + [s.active] && NewestOnDisk(logs, s.frozen)
    && s.number == |logs| % NAMES && NextNumber(s.number) == NextNumber(|logs|)
  }

  lemma {:induction false} NothingLogged()
    ensures Logged([], [], Spool(0, [], map[]))
  {
  }

  lemma {:induction false} LoggedNext(ms: seq<Message>, m: Message, logs: seq<Log>, s: Spool)
    requires Logged(ms, logs, s)
    ensures Logged(ms + [m], if AsksForWrap(m) then logs + [s.active] else logs, Handle(s, m))
  {
    BatchesNext(ms, m, logs, s.active);
    if AsksForWrap(m) {
      NewestNext(logs, s.frozen, s.number, s.active);
      NextOfCount(Handle(s, m).number, |logs| + 1);
    }
  }

  // ---- Children ------------------------------------------------------------------------------------

  /** A wrap request in the pipe belongs to one waiting child. */
  ghost predicate RequestsOk(s: Sys) {
    && (forall i {:trigger s.pipe[i]} :: 0 <= i < |s.pipe| && AsksForWrap(s.pipe[i]) ==>
      s.pipe[i] in s.children && s.children[s.pipe[i]].Waiting?)
    && (forall i, j :: 0 <= i < j < |s.pipe| && AsksForWrap(s.pipe[i]) ==> s.pipe[i] != s.pipe[j])
  }

  lemma {:induction false} RequestsKept(s: Sys, step: Step)
    requires RequestsOk(s) && Enabled(s, step)
    ensures RequestsOk(Next(s, step))
  {
    var t := Next(s, step);
    match step
    case Send(m) =>
      forall i | 0 <= i < |s.pipe| && AsksForWrap(s.pipe[i]) ensures s.pipe[i] != m {
      }
    case Serve =>
      assert forall i :: 0 <= i < |t.pipe| ==> t.pipe[i] == s.pipe[i + 1];
      assert forall i :: 0 <= i < |t.pipe| && AsksForWrap(t.pipe[i]) ==> s.pipe[0] != s.pipe[i + 1];
    case Digest(c) =>
    case Rename(c) =>
  }

  predicate Holds(s: Sys, c: Message) {
    c in s.children && !s.children[c].Waiting?
  }

  /** The child holds the path of its freeze, and digested the log of that freeze. */
  ghost predicate ChildOk(s: Sys, c: Message)
    requires Holds(s, c)
  {
    var child := s.children[c];
    && child.k < |s.logs|
    && child.name == NextNumber(child.k)
    && child.name in s.spool.frozen && s.spool.frozen[child.name] == s.logs[child.k]
    && (child.Digested? ==> child.digested == s.logs[child.k])
  }

  ghost predicate ChildrenOk(s: Sys) {
    && (forall c :: Holds(s, c) ==> ChildOk(s, c))
    && (forall c, d :: Holds(s, c) && Holds(s, d) && c != d ==> s.children[c].name != s.children[d].name)
  }

  /** No frozen file without a child to move it. */
  ghost predicate FilesOk(s: Sys) {
    forall p :: p in s.spool.frozen ==> exists c :: Holds(s, c) && s.children[c].name == p
  }

  /** Each freeze either has its child still holding it, or its log was digested and moved whole. */
  ghost predicate MovedOk(s: Sys) {
    && (forall k :: k in s.moved ==> k < |s.logs| && s.moved[k] == (s.logs[k], s.logs[k]))
    && (forall k :: 0 <= k < |s.logs| ==> k in s.moved || exists c :: Holds(s, c) && s.children[c].k == k)
    && (forall c :: Holds(s, c) ==> s.children[c].k !in s.moved)
  }

  ghost predicate Intact(s: Sys) {
    BatchesOk(s) && RequestsOk(s) && ChildrenOk(s) && FilesOk(s) && MovedOk(s)
  }

  /** The name about to be used is the name of a frozen log not yet moved. */
  predicate Collides(s: Sys) {
    s.pipe != [] && AsksForWrap(s.pipe[0]) && NextNumber(s.spool.number) in s.spool.frozen
  }

  /** The same children hold the same freezes, and no file, log or move changed; a child may have digested its log. */
  ghost predicate HoldersSame(s: Sys, t: Sys) {
    && t.logs == s.logs && t.moved == s.moved && t.spool.frozen == s.spool.frozen
    && (forall c :: Holds(t, c) <==> Holds(s, c))
    && (forall c :: Holds(s, c) ==> t.children[c].name == s.children[c].name && t.children[c].k == s.children[c].k)
    && (forall c :: Holds(s, c) && t.children[c] != s.children[c] ==>
          t.children[c].Digested? && t.children[c].name in s.spool.frozen && t.children[c].digested == s.spool.frozen[t.children[c].name])
  }

  lemma {:induction false} SameChildren(s: Sys, t: Sys)
    requires ChildrenOk(s) && HoldersSame(s, t)
    ensures ChildrenOk(t)
  {
    forall c | Holds(t, c) ensures ChildOk(t, c) {
      assert ChildOk(s, c);
    }
  }

  lemma {:induction false} SameFiles(s: Sys, t: Sys)
    requires FilesOk(s) && HoldersSame(s, t)
    ensures FilesOk(t)
  {
    forall p | p in t.spool.frozen ensures exists c :: Holds(t, c) && t.children[c].name == p {
      var c :| Holds(s, c) && s.children[c].name == p;
      assert Holds(t, c) && t.children[c].name == p;
    }
  }

  lemma {:induction false} SameMoved(s: Sys, t: Sys)
    requires MovedOk(s) && HoldersSame(s, t)
    ensures MovedOk(t)
  {
    forall k | 0 <= k < |t.logs| ensures k in t.moved || exists c :: Holds(t, c) && t.children[c].k == k {
      if k !in t.moved {
        var c :| Holds(s, c) && s.children[c].k == k;
        assert Holds(t, c) && t.children[c].k == k;
      }
    }
  }

  /** Sending, digesting and logging a record leave the freezes with their children. */
  lemma {:induction false} QuietStep(s: Sys, step: Step)
    requires Enabled(s, step) && !step.Rename? && (step.Serve? ==> !AsksForWrap(s.pipe[0]))
    ensures HoldersSame(s, Next(s, step))
  {
  }

  lemma {:induction false} QuietKeepsIntact(s: Sys, step: Step)
    requires Intact(s) && Enabled(s, step) && !step.Rename? && (step.Serve? ==> !AsksForWrap(s.pipe[0]))
    ensures Intact(Next(s, step))
  {
    hide BatchesOk, RequestsOk, ChildrenOk, FilesOk, MovedOk, HoldersSame;
    BatchesKept(s, step);
    RequestsKept(s, step);
    QuietStep(s, step);
    SameChildren(s, Next(s, step));
    SameFiles(s, Next(s, step));
    SameMoved(s, Next(s, step));
  }

  lemma {:induction false} FreezeKeepsFiles(s: Sys)
    requires RequestsOk(s) && FilesOk(s) && s.pipe != [] && AsksForWrap(s.pipe[0])
    ensures FilesOk(Next(s, Serve))
  {
    var t, m := Next(s, Serve), s.pipe[0];
    forall p | p in t.spool.frozen ensures exists c :: Holds(t, c) && t.children[c].name == p {
      if p == NextNumber(s.spool.number) {
        assert Holds(t, m) && t.children[m].name == p;
      } else {
        var c :| Holds(s, c) && s.children[c].name == p;
        assert Holds(t, c) && t.children[c].name == p;
      }
    }
  }

  lemma {:induction false} FreezeKeepsIntact(s: Sys)
    requires Intact(s) && s.pipe != [] && AsksForWrap(s.pipe[0]) && !Collides(s)
    ensures Intact(Next(s, Serve))
  {
    hide RequestsOk, ChildrenOk, FilesOk, MovedOk, Batches;
    BatchesKept(s, Serve);
    RequestsKept(s, Serve);
    FreezeKeepsChildren(s);
    FreezeKeepsMoved(s);
    FreezeKeepsFiles(s);
  }

  lemma {:induction false} FreezeKeepsChild(s: Sys, c: Message)
    requires s.pipe != [] && AsksForWrap(s.pipe[0]) && !Collides(s)
    requires Holds(s, c) && ChildOk(s, c) && c != s.pipe[0]
    ensures Holds(Next(s, Serve), c) && ChildOk(Next(s, Serve), c) && Next(s, Serve).children[c] == s.children[c]
  {
  }

  lemma {:induction false} FreezeTellsChild(s: Sys)
    requires s.pipe != [] && AsksForWrap(s.pipe[0]) && s.spool.number == |s.logs| % NAMES
    ensures Holds(Next(s, Serve), s.pipe[0]) && ChildOk(Next(s, Serve), s.pipe[0])
    ensures Next(s, Serve).children[s.pipe[0]].name == NextNumber(s.spool.number)
  {
    NextOfCount(s.spool.number, |s.logs|);
  }

  lemma {:induction false} FreezeHolders(s: Sys, c: Message)
    requires s.pipe != [] && AsksForWrap(s.pipe[0])
    requires Holds(Next(s, Serve), c) && c != s.pipe[0]
    ensures Holds(s, c)
  {
  }

  lemma {:induction false} FreezeKeepsChildren(s: Sys)
    requires s.pipe != [] && AsksForWrap(s.pipe[0]) && !Collides(s)
    requires s.spool.number == |s.logs| % NAMES && ChildrenOk(s)
    ensures ChildrenOk(Next(s, Serve))
  {
    var t, m := Next(s, Serve), s.pipe[0];
    FreezeTellsChild(s);
    forall c | Holds(t, c)
      ensures ChildOk(t, c)
      ensures c != m ==> Holds(s, c) && t.children[c] == s.children[c] && s.children[c].name in s.spool.frozen
    {
      if c != m {
        FreezeHolders(s, c);
        FreezeKeepsChild(s, c);
        assert ChildOk(s, c);
      }
    }
    forall c, d | Holds(t, c) && Holds(t, d) && c != d ensures t.children[c].name != t.children[d].name {
    }
  }

  lemma {:induction false} FreezeKeepsMoved(s: Sys)
    requires Intact(s) && s.pipe != [] && AsksForWrap(s.pipe[0]) && !Collides(s)
    ensures MovedOk(Next(s, Serve))
  {
    var t, m := Next(s, Serve), s.pipe[0];
    assert m in s.children && s.children[m].Waiting?;
    assert Holds(t, m) && t.children[m].k == |s.logs|;
    forall k | 0 <= k < |t.logs| ensures k in t.moved || exists c :: Holds(t, c) && t.children[c].k == k {
      if k < |s.logs| && k !in s.moved {
        var c :| Holds(s, c) && s.children[c].k == k;
        assert Holds(t, c) && t.children[c].k == k;
      }
    }
    forall c | Holds(t, c) ensures t.children[c].k !in t.moved {
      if c != m {
        assert Holds(s, c);
      }
    }
  }

  lemma {:induction false} RenameKeepsChildren(s: Sys, d: Message)
    requires ChildrenOk(s) && Enabled(s, Rename(d))
    ensures ChildrenOk(Next(s, Rename(d)))
  {
    var t, child := Next(s, Rename(d)), s.children[d];
    forall c | Holds(t, c) ensures ChildOk(t, c) {
      assert ChildOk(s, c) && s.children[c].name != child.name;
    }
  }

  lemma {:induction false} RenameKeepsFiles(s: Sys, d: Message)
    requires FilesOk(s) && Enabled(s, Rename(d))
    ensures FilesOk(Next(s, Rename(d)))
  {
    var t := Next(s, Rename(d));
    forall p | p in t.spool.frozen ensures exists c :: Holds(t, c) && t.children[c].name == p {
      var c :| Holds(s, c) && s.children[c].name == p;
      assert Holds(t, c) && t.children[c].name == p;
    }
  }

  /** The child moves the very log of its freeze, and no other child holds that freeze. */
  lemma {:induction false} RenameKeepsMoved(s: Sys, d: Message)
    requires ChildrenOk(s) && MovedOk(s) && Enabled(s, Rename(d))
    ensures MovedOk(Next(s, Rename(d)))
  {
    var t, child := Next(s, Rename(d)), s.children[d];
    assert Holds(s, d) && ChildOk(s, d);
    forall c | Holds(t, c) ensures t.children[c].k !in t.moved {
      assert ChildOk(s, c) && s.children[c].name != child.name;
    }
    forall k | 0 <= k < |t.logs| ensures k in t.moved || exists c :: Holds(t, c) && t.children[c].k == k {
      if k !in t.moved {
        var c :| Holds(s, c) && s.children[c].k == k;
        assert Holds(t, c) && t.children[c].k == k;
      }
    }
  }

  lemma {:induction false} RenameKeepsIntact(s: Sys, d: Message)
    requires Intact(s) && Enabled(s, Rename(d))
    ensures Intact(Next(s, Rename(d)))
  {
    hide BatchesOk, RequestsOk, ChildrenOk, FilesOk, MovedOk;
    BatchesKept(s, Rename(d));
    RequestsKept(s, Rename(d));
    RenameKeepsChildren(s, d);
    RenameKeepsFiles(s, d);
    RenameKeepsMoved(s, d);
  }

  // ---- Runs without a collision --------------------------------------------------------------------

  /** No freeze of the run finds its new name in use. */
  ghost predicate NeverCollides(run: seq<Step>)
    decreases |run|
  {
    run == [] || (
      && NeverCollides(run[..|run| - 1])
      && (After(run[..|run| - 1]).Some? && run[|run| - 1].Serve? ==>
        !Collides(After(run[..|run| - 1]).value)))
  }

  lemma {:induction false} StepKeepsIntact(s: Sys, step: Step)
    requires Intact(s) && Enabled(s, step) && (step.Serve? ==> !Collides(s))
    ensures Intact(Next(s, step))
  {
    if step.Rename? {
      RenameKeepsIntact(s, step.child);
    } else if step.Serve? && AsksForWrap(s.pipe[0]) {
      FreezeKeepsIntact(s);
    } else {
      QuietKeepsIntact(s, step);
    }
  }

  lemma {:induction false} RunIsIntact(run: seq<Step>)
    requires After(run).Some? && NeverCollides(run)
    ensures Intact(After(run).value)
  {
    if run != [] {
      RunIsIntact(run[..|run| - 1]);
      StepKeepsIntact(After(run[..|run| - 1]).value, run[|run| - 1]);
    } else {
      assert Begin().logs + [Begin().spool.active] == [[]];
    }
  }

  /**
    While no freeze finds its name in use, a frozen file keeps exactly the records since the freeze before
    it until its child moves it, and each child digests and moves the very log frozen for it.
   */
  lemma {:induction false} FrozenLogsNeverChange(run: seq<Step>, c: Message, k: nat)
    requires After(run).Some? && NeverCollides(run)
    ensures var s := After(run).value;
      && (Holds(s, c) ==> ChildOk(s, c))
      && s.logs + [s.spool.active] == Batches(s.served)
      && (k in s.moved ==> k < |s.logs| && s.moved[k] == (s.logs[k], s.logs[k]))
      && (k < |s.logs| && k !in s.moved ==> exists d :: Holds(s, d) && s.children[d].k == k)
  {
    RunIsIntact(run);
  }

  lemma {:induction false} NextIsInjective(a: nat, b: nat)
    ensures NextNumber(a) == NextNumber(b) <==> a % NAMES == b % NAMES
  {
    assert NextNumber(a) == if a % NAMES + 1 == NAMES then 0 else a % NAMES + 1;
    assert NextNumber(b) == if b % NAMES + 1 == NAMES then 0 else b % NAMES + 1;
  }

  lemma {:induction false} SameNumber(number: nat, count: nat, k: nat)
    requires number == count % NAMES && k < count
    ensures NextNumber(number) == NextNumber(k) <==> (count - k) % NAMES == 0
  {
    hide NextNumber;
    NextIsInjective(number, k);
    assert count == count / NAMES * NAMES + number && k == k / NAMES * NAMES + k % NAMES;
    assert count - k == (count / NAMES - k / NAMES) * NAMES + (number - k % NAMES);
  }

  /** A freeze collides exactly with a log frozen a multiple of 65536 freezes ago and not yet moved. */
  lemma {:induction false} CollidesExactly(s: Sys)
    requires Intact(s) && s.pipe != [] && AsksForWrap(s.pipe[0])
    ensures Collides(s) <==> exists c :: Holds(s, c) && (|s.logs| - s.children[c].k) % 65536 == 0
  {
    forall c | Holds(s, c)
      ensures s.children[c].name in s.spool.frozen
      ensures s.children[c].name == NextNumber(s.spool.number) <==> (|s.logs| - s.children[c].k) % NAMES == 0
    {
      assert ChildOk(s, c);
      SameNumber(s.spool.number, |s.logs|, s.children[c].k);
    }
  }

  /** So children that move their logs within the next 65535 freezes never lose one. */
  ghost predicate Quick(s: Sys) {
    forall c :: Holds(s, c) ==> |s.logs| - s.children[c].k < 65536
  }

  lemma {:induction false} QuickChildrenNeverCollide(s: Sys)
    requires Intact(s) && Quick(s)
    ensures !Collides(s)
  {
    if s.pipe != [] && AsksForWrap(s.pipe[0]) {
      CollidesExactly(s);
      assert forall c :: Holds(s, c) ==> ChildOk(s, c);
    }
  }

  /** A collision replaces the older log: its child is left with the newer one. */
  lemma {:induction false} CollisionReplacesLog(s: Sys)
    requires Intact(s) && Collides(s)
    ensures exists c :: (
      && Holds(s, c) && s.children[c].name == NextNumber(s.spool.number)
      && s.spool.frozen[s.children[c].name] == s.logs[s.children[c].k]
      && Next(s, Serve).spool.frozen[s.children[c].name] == s.spool.active)
  {
    var p := NextNumber(s.spool.number);
    var c :| Holds(s, c) && s.children[c].name == p;
    assert ChildOk(s, c);
  }

  // ---- One slow child ------------------------------------------------------------------------------

  /** One child was told the first frozen log; every other freeze so far is over. */
  ghost predicate OneHolder(s: Sys, c: Message, freezes: nat) {
    && s.pipe == [] && s.children == map[c := Told(1, 0)] && s.spool.frozen == map[1 := []]
    && |s.logs| == freezes && s.spool.number == freezes % NAMES
  }

  lemma {:induction false} Then(run: seq<Step>, s: Sys, step: Step) returns (more: seq<Step>, t: Sys)
    requires After(run) == Some(s) && Enabled(s, step)
    ensures more == run + [step] && t == Next(s, step) && After(more) == Some(t)
    ensures NeverCollides(run) && (step.Serve? ==> !Collides(s)) ==> NeverCollides(more)
  {
    more, t := run + [step], Next(s, step);
    assert more[..|more| - 1] == run;
  }

  /** A second child was told the last frozen log. */
  ghost predicate TwoHolders(s: Sys, c: Message, d: Message, freezes: nat) {
    && s.pipe == [] && s.children == map[c := Told(1, 0), d := Told(NextNumber(freezes), freezes)]
    && |s.logs| == freezes + 1 && s.spool.number == (freezes + 1) % NAMES
    && s.spool.frozen.Keys == {1, NextNumber(freezes)} && s.spool.frozen[1] == []
  }

  lemma {:induction false} NextAfter(freezes: nat)
    requires 0 < freezes < NAMES
    ensures freezes % NAMES == freezes && NextNumber(freezes) == (freezes + 1) % NAMES && NextNumber(freezes) != 1
  {
  }

  /** The second child's request is served: it is told the next name, which is not the first child's. */
  lemma {:induction false} ServeSecond(s: Sys, c: Message, d: Message, freezes: nat)
    requires s.pipe == [d] && s.children == map[c := Told(1, 0), d := Waiting] && s.spool.frozen == map[1 := []]
    requires |s.logs| == freezes && s.spool.number == freezes
    requires c != d && AsksForWrap(d) && NextNumber(freezes) == (freezes + 1) % NAMES && NextNumber(freezes) != 1
    ensures !Collides(s) && TwoHolders(Next(s, Serve), c, d, freezes)
  {
    hide NextNumber;
    var t := Next(s, Serve);
    assert t.children == map[c := Told(1, 0), d := Told(NextNumber(freezes), freezes)];
    assert t.spool.frozen == map[1 := [], NextNumber(freezes) := s.spool.active];
  }

  lemma {:induction false} AskAndServe(run: seq<Step>, s: Sys, c: Message, d: Message, freezes: nat)
      returns (more: seq<Step>, t: Sys)
    requires After(run) == Some(s) && NeverCollides(run) && OneHolder(s, c, freezes)
    requires c != d && AsksForWrap(d) && 0 < freezes < NAMES
    ensures After(more) == Some(t) && NeverCollides(more) && TwoHolders(t, c, d, freezes)
  {
    hide NextNumber, After, NeverCollides, TwoHolders, Collides;
    NextAfter(freezes);
    more, t := Then(run, s, Send(d));
    ServeSecond(t, c, d, freezes);
    more, t := Then(more, t, Serve);
  }

  lemma {:induction false} MoveSecond(s: Sys, c: Message, d: Message, freezes: nat)
    requires TwoHolders(s, c, d, freezes) && c != d && NextNumber(freezes) != 1
    ensures Enabled(s, Digest(d)) && Enabled(Next(s, Digest(d)), Rename(d))
    ensures OneHolder(Next(Next(s, Digest(d)), Rename(d)), c, freezes + 1)
  {
    hide NextNumber;
    var t := Next(Next(s, Digest(d)), Rename(d));
    assert t.children == map[c := Told(1, 0)];
    assert t.spool.frozen == map[1 := []];
  }

  lemma {:induction false} DigestAndRename(run: seq<Step>, s: Sys, c: Message, d: Message, freezes: nat)
      returns (more: seq<Step>, t: Sys)
    requires After(run) == Some(s) && NeverCollides(run) && TwoHolders(s, c, d, freezes)
    requires c != d && 0 < freezes < NAMES
    ensures After(more) == Some(t) && NeverCollides(more) && OneHolder(t, c, freezes + 1)
  {
    hide NextNumber, After, NeverCollides, TwoHolders, OneHolder, Enabled, Next;
    NextAfter(freezes);
    MoveSecond(s, c, d, freezes);
    more, t := Then(run, s, Digest(d));
    more, t := Then(more, t, Rename(d));
  }

  /** A second child asks, is answered, digests and moves its log. */
  lemma {:induction false} WholeWrap(run: seq<Step>, s: Sys, c: Message, d: Message, freezes: nat)
      returns (more: seq<Step>, t: Sys)
    requires After(run) == Some(s) && NeverCollides(run) && OneHolder(s, c, freezes)
    requires c != d && AsksForWrap(d) && 0 < freezes < NAMES
    ensures After(more) == Some(t) && NeverCollides(more) && OneHolder(t, c, freezes + 1)
  {
    more, t := AskAndServe(run, s, c, d, freezes);
    more, t := DigestAndRename(more, t, c, d, freezes);
  }

  lemma {:induction false} ManyWraps(c: Message, d: Message, freezes: nat) returns (run: seq<Step>, s: Sys)
    requires c != d && AsksForWrap(c) && AsksForWrap(d) && 0 < freezes <= NAMES
    ensures After(run) == Some(s) && NeverCollides(run) && OneHolder(s, c, freezes)
  {
    if freezes == 1 {
      run, s := Then([], Begin(), Send(c));
      assert s.pipe[0] == c;
      run, s := Then(run, s, Serve);
    } else {
      run, s := ManyWraps(c, d, freezes - 1);
      run, s := WholeWrap(run, s, c, d, freezes - 1);
    }
  }

  /** A single outstanding name is enough for a collision: its child only has to be slow for 65536 freezes. */
  lemma {:induction false} OneSlowChildCollides(c: Message, d: Message) returns (run: seq<Step>, s: Sys)
    requires c != d && AsksForWrap(c) && AsksForWrap(d)
    ensures After(run) == Some(s) && NeverCollides(run)
    ensures |s.spool.frozen| == 1 && Collides(s)
  {
    run, s := ManyWraps(c, d, NAMES);
    run, s := Then(run, s, Send(d));
    assert s.pipe[0] == d;
  }
}
