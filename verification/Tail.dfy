/**
  The tail of a rolling log (flowd/tail.go): a writer appends lines and sometimes renames the log, and the
  reader follows the path.  Logs are numbered by age, and the last one is at the path.
 */
module Tail {
  import opened Text
  import opened Collections

  type Line = string
  type Logs = seq<seq<Line>>

  /** `visited` is a history of the logs opened so far. */
  datatype Reader = Reader(src: nat, pos: nat, atEof: bool, draining: bool, out: seq<Line>, visited: set<nat>)

  datatype Sys = Sys(logs: Logs, reader: Reader)

  datatype Step = Append(line: Line) | Roll | Read | Reopen

  // ---- The reader ----------------------------------------------------------------------------------

  /** The file under the reader and the position exist. */
  ghost predicate OnFile(logs: Logs, r: Reader) {
    r.src < |logs| && r.pos <= |logs[r.src]|
  }

  /** ReadString: a line, or the end of the file as it is now. */
  function ReadLine(logs: Logs, r: Reader): Reader
    requires OnFile(logs, r)
  {
    if r.pos < |logs[r.src]| then r.(pos := r.pos + 1, out := r.out + [logs[r.src][r.pos]])
    else r.(atEof := true)
  }

  /** The eof closure: open the path again and compare the files; a rolled file is left at its second end. */
  function CheckRoll(logs: Logs, r: Reader): Reader
    requires OnFile(logs, r)
  {
    var f2 := |logs| - 1;
    if r.src == f2 then r.(atEof := false, draining := false)
    else if r.draining then r.(src := f2, pos := 0, atEof := false, draining := false, visited := r.visited + {f2})
    else r.(atEof := false, draining := true)
  }

  /** The goroutine of tail.forever, one turn of its loop at a time. */
  class Follower {
    var src: nat
    var pos: nat
    var atEof: bool
    var draining: bool
    var out: seq<Line>
    ghost var visited: set<nat>

    ghost function View(): Reader reads this {
      Reader(src, pos, atEof, draining, out, visited)
    }

    constructor (logs: Logs)
      requires |logs| > 0
      ensures View() == Reader(|logs| - 1, 0, false, false, [], {|logs| - 1})
    {
      src, pos, atEof, draining, out := |logs| - 1, 0, false, false, [];
      visited := {|logs| - 1};
    }

    method Turn(logs: Logs)
      requires OnFile(logs, View()) && !atEof
      modifies this
      ensures View() == ReadLine(logs, old(View()))
    {
      if pos < |logs[src]| {
        out := out + [logs[src][pos]];
        pos := pos + 1;
        return;
      }
      atEof := true;
    }

    method Eof(logs: Logs)
      requires OnFile(logs, View()) && atEof
      modifies this
      ensures View() == CheckRoll(logs, old(View()))
    {
      var f2 := |logs| - 1;
      atEof := false;
      if src == f2 {
        draining := false;
      } else if draining {
        src, pos, draining := f2, 0, false;
        visited := visited + {f2};
      } else {
        draining := true;
      }
    }
  }

  // ---- Runs ----------------------------------------------------------------------------------------

  function Next(s: Sys, step: Step): Sys
    requires OnFile(s.logs, s.reader)
  {
    match step
    case Append(line) =>
      var last := |s.logs| - 1;
      s.(logs := s.logs[last := s.logs[last] + [line]])
    case Roll => s.(logs := s.logs + [[]])
    case Read => s.(reader := ReadLine(s.logs, s.reader))
    case Reopen => s.(reader := CheckRoll(s.logs, s.reader))
  }

  /** The writer can always go on; the reader alternates between reading and looking at the path. */
  predicate Enabled(s: Sys, step: Step) {
    (step.Read? ==> !s.reader.atEof) && (step.Reopen? ==> s.reader.atEof)
  }

  function Begin(first: seq<Line>): Sys {
    Sys([first], Reader(0, 0, false, false, [], {0}))
  }

  /** The state after a run, if every step of it was enabled. */
  function After(first: seq<Line>, run: seq<Step>): Option<Sys> {
    if run == [] then Some(Begin(first))
    else
      var before := After(first, run[..|run| - 1]);
      if before.Some? then Move(before.value, run[|run| - 1]) else None
  }

  function Move(t: Sys, step: Step): Option<Sys> {
    if t.reader.src < |t.logs| && t.reader.pos <= |t.logs[t.reader.src]| && Enabled(t, step) then Some(Next(t, step)) else None
  }

  /** A run leads to a state. */
  ghost predicate Leads(first: seq<Line>, run: seq<Step>, s: Sys) {
    After(first, run) == Some(s)
  }

  // ---- What a reader has seen ----------------------------------------------------------------------

  /** The lines of the first `n` logs, in the order they were written, without the logs outside `kept`. */
  function Lines(logs: Logs, kept: set<nat>, n: nat): seq<Line>
    requires n <= |logs|
  {
    if n == 0 then [] else Lines(logs, kept, n - 1) + if n - 1 in kept then logs[n - 1] else []
  }

  function UpTo(n: nat): set<nat> {
    if n == 0 then {} else UpTo(n - 1) + {n - 1}
  }

  /** All lines written so far. */
  function Written(logs: Logs): seq<Line> {
    Lines(logs, UpTo(|logs|), |logs|)
  }

  /** Whole visited logs in order, then the part of the current log that was read. */
  ghost predicate Faithful(s: Sys) {
    && OnFile(s.logs, s.reader)
    && s.reader.out == Lines(s.logs, s.reader.visited, s.reader.src) + s.logs[s.reader.src][..s.reader.pos]
  }

  ghost predicate Inv(s: Sys) {
    && Faithful(s)
    && s.reader.src in s.reader.visited
    && (forall v :: v in s.reader.visited ==> v <= s.reader.src)
    && (s.reader.draining ==> s.reader.src < |s.logs| - 1)
    && (s.reader.draining && s.reader.atEof ==> s.reader.pos == |s.logs[s.reader.src]|)
  }

  lemma {:induction false} LinesSame(a: Logs, b: Logs, v: set<nat>, w: set<nat>, n: nat)
    requires n <= |a| && n <= |b| && (forall i: nat :: i < n ==> a[i] == b[i])
    requires forall i: nat :: i < n ==> (i in v <==> i in w)
    ensures Lines(a, v, n) == Lines(b, w, n)
  {
    if n > 0 {
      LinesSame(a, b, v, w, n - 1);
    }
  }

  lemma {:induction false} LinesSkip(logs: Logs, v: set<nat>, m: nat, n: nat)
    requires m <= n <= |logs| && forall i :: m <= i < n ==> i !in v
    ensures Lines(logs, v, n) == Lines(logs, v, m)
  {
    if m < n {
      LinesSkip(logs, v, m, n - 1);
    }
  }

  lemma {:induction false} AppendKeeps(s: Sys, line: Line)
    requires Inv(s)
    ensures Inv(Next(s, Append(line)))
  {
    var t := Next(s, Append(line));
    LinesSame(s.logs, t.logs, s.reader.visited, s.reader.visited, s.reader.src);
  }

  lemma {:induction false} RollKeeps(s: Sys)
    requires Inv(s)
    ensures Inv(Next(s, Roll))
  {
    LinesSame(s.logs, Next(s, Roll).logs, s.reader.visited, s.reader.visited, s.reader.src);
  }

  lemma {:induction false} ReadKeeps(s: Sys)
    requires Inv(s) && Enabled(s, Read)
    ensures Inv(Next(s, Read))
  {
    var r := s.reader;
    if r.pos < |s.logs[r.src]| {
      assert s.logs[r.src][..r.pos + 1] == s.logs[r.src][..r.pos] + [s.logs[r.src][r.pos]];
    }
  }

  /** The switch leaves a file that was read to its final end. */
  lemma {:induction false} ReopenKeeps(s: Sys)
    requires Inv(s) && Enabled(s, Reopen)
    ensures Inv(Next(s, Reopen))
  {
    var r, r' := s.reader, Next(s, Reopen).reader;
    if r.draining {
      LinesSame(s.logs, s.logs, r.visited, r'.visited, r.src);
      LinesSkip(s.logs, r'.visited, r.src + 1, r'.src);
      assert s.logs[r.src][..r.pos] == s.logs[r.src];
      assert Lines(s.logs, r'.visited, r.src + 1) == Lines(s.logs, r'.visited, r.src) + s.logs[r.src];
      assert r'.out + s.logs[r'.src][..0] == r'.out;
    }
  }

  lemma {:induction false} EveryRunKeeps(first: seq<Line>, run: seq<Step>, s: Sys)
    requires Leads(first, run, s)
    ensures Inv(s)
    decreases |run|
  {
    if run != [] {
      var t := After(first, run[..|run| - 1]).value;
      EveryRunKeeps(first, run[..|run| - 1], t);
      match run[|run| - 1]
      case Append(line) => AppendKeeps(t, line);
      case Roll => RollKeeps(t);
      case Read => ReadKeeps(t);
      case Reopen => ReopenKeeps(t);
    }
  }

  // ---- What the reader guarantees ------------------------------------------------------------------

  /** In every run the output is the lines of the visited logs in the order written, the last log up to a point. */
  lemma {:induction false} OutputInOrder(first: seq<Line>, run: seq<Step>, s: Sys)
    requires Leads(first, run, s)
    ensures s.reader.src < |s.logs| && s.reader.pos <= |s.logs[s.reader.src]|
    ensures s.reader.out == Lines(s.logs, s.reader.visited, s.reader.src) + s.logs[s.reader.src][..s.reader.pos]
  {
    EveryRunKeeps(first, run, s);
  }

  /** Where a line of a log stands among all lines written. */
  lemma {:induction false} LinesAt(logs: Logs, v: set<nat>, n: nat, l: nat, i: nat)
    requires l < n <= |logs| && l in v && i < |logs[l]|
    ensures |Lines(logs, v, l)| + i < |Lines(logs, v, n)|
    ensures Lines(logs, v, n)[|Lines(logs, v, l)| + i] == logs[l][i]
  {
    if l < n - 1 {
      LinesAt(logs, v, n - 1, l, i);
    }
  }

  /** Leaving out logs that hold lines makes the output shorter. */
  lemma {:induction false} LinesShorter(logs: Logs, v: set<nat>, n: nat)
    requires n <= |logs|
    ensures |Lines(logs, v, n)| <= |Lines(logs, UpTo(|logs|), n)|
    ensures (forall i: nat :: i < n && i !in v ==> logs[i] == []) <==> |Lines(logs, v, n)| == |Lines(logs, UpTo(|logs|), n)|
    ensures (forall i: nat :: i < n && i !in v ==> logs[i] == []) ==> Lines(logs, v, n) == Lines(logs, UpTo(|logs|), n)
  {
    if n > 0 {
      UpToMembers(|logs|, n - 1);
      LinesShorter(logs, v, n - 1);
    }
  }

  ghost predicate MissesOnlyEmpty(s: Sys) {
    forall i: nat :: i < s.reader.src && i < |s.logs| && i !in s.reader.visited ==> s.logs[i] == []
  }

  lemma {:induction false} LinesPrefix(logs: Logs, v: set<nat>, m: nat, n: nat)
    requires m <= n <= |logs|
    ensures Lines(logs, v, m) <= Lines(logs, v, n)
  {
    if m < n {
      LinesPrefix(logs, v, m, n - 1);
    }
  }

  /** All lines written before the reader's place. */
  ghost function Reached(s: Sys): seq<Line>
    requires OnFile(s.logs, s.reader)
  {
    Lines(s.logs, UpTo(|s.logs|), s.reader.src) + s.logs[s.reader.src][..s.reader.pos]
  }

  lemma {:induction false} ReachedIsPrefix(s: Sys)
    requires OnFile(s.logs, s.reader)
    ensures Reached(s) <= Written(s.logs)
    ensures CaughtUp(s) ==> Reached(s) == Written(s.logs)
  {
    var r, all := s.reader, UpTo(|s.logs|);
    LinesPrefix(s.logs, all, r.src + 1, |s.logs|);
    UpToMembers(|s.logs|, r.src);
    assert Lines(s.logs, all, r.src + 1) == Lines(s.logs, all, r.src) + s.logs[r.src];
    assert Reached(s) <= Lines(s.logs, all, r.src + 1);
  }

  /** The output is everything written before the reader's place if and only if the logs passed over were empty. */
  lemma {:induction false} LosesExactly(s: Sys)
    requires Inv(s)
    ensures s.reader.out == Reached(s) <==> MissesOnlyEmpty(s)
  {
    LinesShorter(s.logs, s.reader.visited, s.reader.src);
  }

  /** So a reader that has caught up has all lines if and only if the logs passed over were empty. */
  lemma {:induction false} CaughtUpExactly(s: Sys)
    requires Inv(s) && CaughtUp(s)
    ensures s.reader.out == Written(s.logs) <==> MissesOnlyEmpty(s)
  {
    LosesExactly(s);
    ReachedIsPrefix(s);
  }

  /** The output is a prefix of everything written when the logs passed over were empty. */
  lemma {:induction false} NothingLost(s: Sys)
    requires Inv(s) && MissesOnlyEmpty(s)
    ensures s.reader.out <= Written(s.logs)
  {
    LosesExactly(s);
    ReachedIsPrefix(s);
  }

  /** And only then, once a line of the current log came out, if no two lines are equal. */
  lemma {:induction false} LostLinesShow(s: Sys)
    requires Inv(s) && s.reader.pos > 0 && Distinct(Written(s.logs))
    ensures s.reader.out <= Written(s.logs) <==> MissesOnlyEmpty(s)
  {
    var r, all := s.reader, UpTo(|s.logs|);
    LinesShorter(s.logs, r.visited, r.src);
    if MissesOnlyEmpty(s) {
      NothingLost(s);
    } else {
      UpToMembers(|s.logs|, r.src);
      LinesAt(s.logs, all, |s.logs|, r.src, 0);
      var at := |Lines(s.logs, r.visited, r.src)|;
      assert r.out[at] == s.logs[r.src][0];
      assert Written(s.logs)[at] != s.logs[r.src][0];
    }
  }

  // ---- When a log is passed over -------------------------------------------------------------------

  /** A second roll comes before the switch away from the log that rolled first. */
  ghost predicate SecondRoll(t: Sys, step: Step) {
    step == Roll && t.reader.src + 1 < |t.logs|
  }

  /** No roll of the run is a second one. */
  ghost predicate Prompt(first: seq<Line>, run: seq<Step>) {
    forall k {:trigger run[..k]} :: 0 <= k < |run| && After(first, run[..k]).Some? ==>
      !SecondRoll(After(first, run[..k]).value, run[k])
  }

  lemma {:induction false} PromptPrefix(first: seq<Line>, run: seq<Step>)
    requires Prompt(first, run) && run != []
    ensures Prompt(first, run[..|run| - 1])
  {
    var less := run[..|run| - 1];
    forall k | 0 <= k < |less| && After(first, less[..k]).Some? ensures !SecondRoll(After(first, less[..k]).value, less[k]) {
      assert less[..k] == run[..k];
    }
  }

  lemma {:induction false} PromptStep(t: Sys, step: Step)
    requires Inv(t) && Enabled(t, step) && !SecondRoll(t, step)
    requires t.reader.visited == UpTo(t.reader.src + 1) && |t.logs| <= t.reader.src + 2
    ensures Next(t, step).reader.visited == UpTo(Next(t, step).reader.src + 1)
    ensures |Next(t, step).logs| <= Next(t, step).reader.src + 2
  {
    assert UpTo(t.reader.src + 1 + 1) == UpTo(t.reader.src + 1) + {t.reader.src + 1};
  }

  lemma {:induction false} PromptSkipsNothing(first: seq<Line>, run: seq<Step>, s: Sys)
    requires Leads(first, run, s) && Prompt(first, run)
    ensures s.reader.visited == UpTo(s.reader.src + 1) && |s.logs| <= s.reader.src + 2
    decreases |run|
  {
    if run == [] {
      assert UpTo(1) == UpTo(0) + {0};
    } else {
      var t := After(first, run[..|run| - 1]).value;
      PromptPrefix(first, run);
      PromptSkipsNothing(first, run[..|run| - 1], t);
      EveryRunKeeps(first, run[..|run| - 1], t);
      PromptStep(t, run[|run| - 1]);
    }
  }

  lemma {:induction false} UpToMembers(n: nat, i: nat)
    ensures i in UpTo(n) <==> i < n
  {
    if n > 0 {
      UpToMembers(n - 1, i);
    }
  }

  /** Without a second roll before a switch, the output is a prefix of everything written. */
  lemma {:induction false} PromptLosesNothing(first: seq<Line>, run: seq<Step>, s: Sys)
    requires Leads(first, run, s) && Prompt(first, run)
    ensures s.reader.out <= Written(s.logs)
  {
    PromptSkipsNothing(first, run, s);
    EveryRunKeeps(first, run, s);
    forall i: nat ensures i in s.reader.visited <==> i < s.reader.src + 1 {
      UpToMembers(s.reader.src + 1, i);
    }
    NothingLost(s);
  }

  /** A log is passed over exactly by a switch after two or more rolls, and only logs that came and went. */
  lemma {:induction false} SwitchPassesOver(s: Sys, l: nat)
    requires Inv(s) && Enabled(s, Reopen)
    ensures var r, r' := s.reader, Next(s, Reopen).reader;
      l < r'.src && l !in r'.visited <==> (l < r.src && l !in r.visited) || (r.draining && r.src < l < |s.logs| - 1)
  {
  }

  /** With two rolls before the switch a whole log can be lost: then the output is no prefix of what was written. */
  lemma {:induction false} TwoRollsLose(a: Line, b: Line) returns (run: seq<Step>, s: Sys)
    requires a != b
    ensures Leads([], run, s) && CaughtUp(s)
    ensures Written(s.logs) == [a, b] && s.reader.out == [b] && !(s.reader.out <= Written(s.logs))
  {
    run, s := LogPassedOver(a);
    run, s := Then([], run, s, Append(b));
    assert s.logs[2] == [b] && s.logs == [[], [a], [b]];
    run, s := Then([], run, s, Read);
    assert s.logs == [[], [a], [b]];
    UpToMembers(3, 0);
    UpToMembers(3, 1);
    UpToMembers(3, 2);
    assert Lines(s.logs, UpTo(3), 1) == [];
    assert Lines(s.logs, UpTo(3), 2) == [a];
    assert Lines(s.logs, UpTo(3), 3) == [a, b];
  }

  lemma {:induction false} LogPassedOver(a: Line) returns (run: seq<Step>, s: Sys)
    ensures Leads([], run, s) && s.logs == [[], [a], []]
    ensures s.reader.src == 2 && s.reader.pos == 0 && !s.reader.atEof && s.reader.out == []
  {
    run, s := [], Begin([]);
    run, s := Then([], run, s, Roll);
    assert s.logs == [[], []];
    run, s := Then([], run, s, Append(a));
    assert s.logs[1] == [a] && s.logs == [[], [a]];
    run, s := Then([], run, s, Roll);
    assert s.logs == [[], [a], []];
    run, s := Then([], run, s, Read);
    run, s := Then([], run, s, Reopen);
    run, s := Then([], run, s, Read);
    run, s := Then([], run, s, Reopen);
    assert s.logs == [[], [a], []];
  }

  lemma {:induction false} Then(first: seq<Line>, run: seq<Step>, t: Sys, step: Step) returns (more: seq<Step>, s: Sys)
    requires Leads(first, run, t) && OnFile(t.logs, t.reader) && Enabled(t, step)
    ensures more == run + [step] && s == Next(t, step)
    ensures Leads(first, more, s)
  {
    more, s := run + [step], Next(t, step);
    assert more[..|more| - 1] == run;
  }

  /** A log that came and went while the reader was at an older one. */
  predicate PassedOver(s: Sys, l: nat) {
    l < |s.logs| - 1 && l !in s.reader.visited
  }

  /** Only the log at the path is ever opened: what is passed over stays so. */
  lemma {:induction false} StaysPassedOver(t: Sys, step: Step, l: nat)
    requires OnFile(t.logs, t.reader) && PassedOver(t, l)
    ensures PassedOver(Next(t, step), l)
  {
  }

  /** The log that a second roll takes from the path has not been opened, and never will be. */
  lemma {:induction false} SecondRollPassesOver(t: Sys, step: Step)
    requires Inv(t) && SecondRoll(t, step)
    ensures PassedOver(Next(t, step), |t.logs| - 1)
  {
  }

  lemma {:induction false} NotPromptPassesOver(first: seq<Line>, run: seq<Step>, s: Sys) returns (l: nat)
    requires Leads(first, run, s) && !Prompt(first, run)
    ensures PassedOver(s, l)
    decreases |run|
  {
    hide Inv, Prompt, SecondRoll, PassedOver;
    var less, step := LastNotPrompt(first, run);
    var t := After(first, less).value;
    EveryRunKeeps(first, less, t);
    if SecondRoll(t, step) {
      SecondRollPassesOver(t, step);
      l := |t.logs| - 1;
    } else {
      l := NotPromptPassesOver(first, less, t);
      InvOnFile(t);
      StaysPassedOver(t, step, l);
    }
  }

  lemma {:induction false} InvOnFile(t: Sys)
    requires Inv(t)
    ensures OnFile(t.logs, t.reader)
  {
  }

  lemma {:induction false} LastNotPrompt(first: seq<Line>, run: seq<Step>) returns (less: seq<Step>, step: Step)
    requires After(first, run).Some? && !Prompt(first, run)
    ensures run != [] && less == run[..|run| - 1] && step == run[|run| - 1] && After(first, less).Some?
    ensures After(first, run) == Move(After(first, less).value, step)
    ensures SecondRoll(After(first, less).value, step) || !Prompt(first, less)
  {
    var k :| 0 <= k < |run| && After(first, run[..k]).Some? && SecondRoll(After(first, run[..k]).value, run[k]);
    less, step := run[..|run| - 1], run[|run| - 1];
    if k < |less| {
      assert less[..k] == run[..k];
    }
  }

  /** A reader that has caught up has opened every log if and only if no second roll came before a switch. */
  lemma {:induction false} PromptExactly(first: seq<Line>, run: seq<Step>, s: Sys)
    requires Leads(first, run, s) && CaughtUp(s)
    ensures s.reader.visited == UpTo(|s.logs|) <==> Prompt(first, run)
  {
    if Prompt(first, run) {
      PromptSkipsNothing(first, run, s);
    } else {
      var l := NotPromptPassesOver(first, run, s);
      UpToMembers(|s.logs|, l);
    }
  }

  // ---- The goroutine over a whole run --------------------------------------------------------------

  /** The follower against a writer: it puts out whole logs in the order written, and all of them in a prompt run. */
  method Follow(first: seq<Line>, run: seq<Step>) returns (logs: Logs, f: Follower)
    requires After(first, run).Some?
    ensures fresh(f) && Leads(first, run, Sys(logs, f.View()))
    ensures OnFile(logs, f.View()) && f.out == Lines(logs, f.visited, f.src) + logs[f.src][..f.pos]
    ensures Prompt(first, run) ==> f.out <= Written(logs)
    ensures CaughtUp(Sys(logs, f.View())) ==>
      (f.out == Written(logs) <==> MissesOnlyEmpty(Sys(logs, f.View())))
  {
    logs := [first];
    f := new Follower(logs);
    for i := 0 to |run|
      invariant fresh(f) && Leads(first, run[..i], Sys(logs, f.View()))
    {
      RunPrefix(first, run, i);
      RunPrefix(first, run, i + 1);
      EveryRunKeeps(first, run[..i], Sys(logs, f.View()));
      match run[i]
      case Append(line) => logs := logs[|logs| - 1 := logs[|logs| - 1] + [line]];
      case Roll => logs := logs + [[]];
      case Read => f.Turn(logs);
      case Reopen => f.Eof(logs);
    }
    assert run[..|run|] == run;
    ghost var s := Sys(logs, f.View());
    EveryRunKeeps(first, run, s);
    if Prompt(first, run) {
      PromptLosesNothing(first, run, s);
    }
    if CaughtUp(s) {
      CaughtUpExactly(s);
    }
  }

  /** A run that can be made whole can be made step by step. */
  lemma {:induction false} RunPrefix(first: seq<Line>, run: seq<Step>, i: nat)
    requires After(first, run).Some? && i <= |run|
    ensures After(first, run[..i]).Some?
    ensures i > 0 ==> After(first, run[..i - 1]).Some? && After(first, run[..i]) == Move(After(first, run[..i - 1]).value, run[i - 1])
    decreases |run|
  {
    if i == |run| {
      assert run[..i] == run;
    } else {
      var less := run[..|run| - 1];
      RunPrefix(first, less, i);
      assert less[..i] == run[..i];
      if i > 0 {
        assert less[..i - 1] == run[..i - 1];
      }
    }
  }

  // ---- Catching up ---------------------------------------------------------------------------------

  /** What is left for the reader to do when the writer rests. */
  function Behind(s: Sys): nat
    requires OnFile(s.logs, s.reader)
  {
    var r, last := s.reader, |s.logs| - 1;
    var unread := |s.logs[r.src]| - r.pos;
    if r.src == last then 2 * unread + if r.atEof then 1 else 0
    else 2 * unread + 2 * |s.logs[last]| + 3 + (if r.draining then 0 else 2) + (if r.atEof then 0 else 1)
  }

  predicate CaughtUp(s: Sys) {
    && s.reader.src == |s.logs| - 1
    && s.reader.src < |s.logs| && s.reader.pos == |s.logs[s.reader.src]|
  }

  function ReaderStep(s: Sys): Step {
    if s.reader.atEof then Reopen else Read
  }

  /** Each step of a reader that is behind brings it closer to the end of the log at the path. */
  lemma {:induction false} ReaderGainsGround(s: Sys)
    requires Inv(s) && !CaughtUp(s)
    ensures Inv(Next(s, ReaderStep(s))) && Behind(Next(s, ReaderStep(s))) < Behind(s)
  {
    if s.reader.atEof {
      ReopenKeeps(s);
    } else {
      ReadKeeps(s);
    }
  }

  lemma {:induction false} ReaderCatchesUp(first: seq<Line>, run: seq<Step>, s: Sys) returns (rest: seq<Step>, t: Sys)
    requires Leads(first, run, s)
    ensures Leads(first, run + rest, t) && CaughtUp(t) && t.logs == s.logs
    ensures |rest| <= Behind(s)
    ensures forall k :: 0 <= k < |rest| ==> rest[k].Read? || rest[k].Reopen?
    decreases if OnFile(s.logs, s.reader) then Behind(s) else 0
  {
    EveryRunKeeps(first, run, s);
    if CaughtUp(s) {
      rest, t := [], s;
      assert run + rest == run;
    } else {
      var step := ReaderStep(s);
      ReaderGainsGround(s);
      var run', s' := Then(first, run, s, step);
      var more;
      more, t := ReaderCatchesUp(first, run', s');
      rest := [step] + more;
      assert run + rest == (run + [step]) + more;
    }
  }
}
