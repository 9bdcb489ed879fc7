/** Children that take and children that wrap at the same time (bio4d/bio4d.c, bio4d/brr.c). */
module TakeRace {
  // A take looks into spool/wrap once, before it sends the blob, and removes the blob after the client's
  // reply; a wrap stores the frozen log before it moves it into spool/wrap.

  import opened Text
  import UdigSet
  import WrapRoll

  datatype Taker = Checked(u: string) | Opened(u: string)

  /** A frozen log already stored and not yet in spool/wrap. */
  datatype Wrapper = Stored(u: string, log: string)

  datatype Sys = Sys(blobs: map<string, string>, wrapped: map<string, string>,
                     takers: map<nat, Taker>, wrappers: map<nat, Wrapper>)

  datatype Step =
    | Put(u: string, bytes: string)
    | Check(child: nat, u: string)                // no such file in spool/wrap
    | Open(child: nat)                            // the blob file is there
    | Unlink(child: nat)                          // the client took the blob
    | Leave(child: nat)                           // it did not, or there was no blob
    | Digest(child: nat, u: string, log: string)  // store the frozen log
    | Rename(child: nat)                          // move it into spool/wrap
    | Roll(udigs: set<string>)

  predicate Enabled(s: Sys, step: Step) {
    match step
    case Put(_, _) => true
    case Check(c, u) => c !in s.takers && u !in s.wrapped
    case Open(c) => c in s.takers && s.takers[c].Checked? && s.takers[c].u in s.blobs
    case Unlink(c) => c in s.takers && s.takers[c].Opened?
    case Leave(c) => c in s.takers
    case Digest(c, _, _) => c !in s.wrappers
    case Rename(c) => c in s.wrappers
    case Roll(_) => true
  }

  function Next(s: Sys, step: Step): Sys
    requires Enabled(s, step)
  {
    match step
    case Put(u, bytes) => s.(blobs := s.blobs[u := bytes])
    case Check(c, u) => s.(takers := s.takers[c := Checked(u)])
    case Open(c) => s.(takers := s.takers[c := Opened(s.takers[c].u)])
    case Unlink(c) => s.(blobs := s.blobs - {s.takers[c].u}, takers := s.takers - {c})
    case Leave(c) => s.(takers := s.takers - {c})
    case Digest(c, u, log) => s.(blobs := s.blobs[u := log], wrappers := s.wrappers[c := Stored(u, log)])
    case Rename(c) =>
      s.(wrapped := s.wrapped[s.wrappers[c].u := s.wrappers[c].log], wrappers := s.wrappers - {c})
    case Roll(udigs) => s.(wrapped := s.wrapped - udigs)
  }

  /** The state after a run, if every step of it was enabled. */
  function After(first: Sys, run: seq<Step>): Option<Sys> {
    if run == [] then Some(first)
    else
      var before := After(first, run[..|run| - 1]);
      if before.Some? && Enabled(before.value, run[|run| - 1]) then Some(Next(before.value, run[|run| - 1])) else None
  }

  predicate LogsStored(s: Sys) {
    s.wrapped.Keys <= s.blobs.Keys
  }

  /** The late removal of a log wrapped since, or the move of a log removed since. */
  predicate Loses(s: Sys, step: Step)
    requires Enabled(s, step)
  {
    match step
    case Unlink(c) => s.takers[c].u in s.wrapped
    case Rename(c) => s.wrappers[c].u !in s.blobs
    case _ => false
  }

  /** These two steps, and no other, leave a wrapped log without its blob. */
  lemma {:induction false} LosesExactly(s: Sys, step: Step)
    requires LogsStored(s) && Enabled(s, step)
    ensures LogsStored(Next(s, step)) <==> !Loses(s, step)
  {
    match step
    case Unlink(c) =>
      var u, t := s.takers[c].u, Next(s, step);
      assert u !in t.blobs.Keys;
      assert u in t.wrapped.Keys <==> u in s.wrapped;
    case Rename(c) =>
      var u, t := s.wrappers[c].u, Next(s, step);
      assert u in t.wrapped.Keys && t.wrapped.Keys == s.wrapped.Keys + {u};
      assert t.blobs == s.blobs;
    case _ =>
  }

  // ---- Alone, a child does what its request says ---------------------------------------------------

  /** The same blobs and wrapped logs as in the requests served one after the other. */
  ghost predicate Same(s: Sys, t: WrapRoll.Store) {
    s.blobs == t.blobs && s.wrapped == t.wrapped
  }

  /** A put or a give. */
  lemma {:induction false} PutAlone(h: WrapRoll.Hash, s: Sys, t: WrapRoll.Store, u: string, bytes: string)
    requires Same(s, t) && WrapRoll.Matches(h, u, bytes)
    ensures Same(Next(s, Put(u, bytes)), WrapRoll.PutBlob(h, t, u, bytes))
  {
  }

  /** A take of a blob that is stored and not wrapped, looked for, opened, and removed or left. */
  lemma {:induction false} TakeAlone(s: Sys, t: WrapRoll.Store, c: nat, u: string, accepted: bool)
    requires Same(s, t) && c !in s.takers && u !in s.wrapped && u in s.blobs
    ensures Enabled(s, Check(c, u)) && Enabled(Next(s, Check(c, u)), Open(c)) && !Enabled(Next(s, Check(c, u)), Unlink(c))
    ensures var ready := Next(Next(s, Check(c, u)), Open(c)); var last := if accepted then Unlink(c) else Leave(c);
      Enabled(ready, last) && Same(Next(ready, last), WrapRoll.TakeBlob(t, u, accepted)) && Next(ready, last).takers == s.takers
  {
  }

  /** The first half of a wrap: the active log goes into the store and into spool/wrap. */
  lemma {:induction false} WrapAlone(h: WrapRoll.Hash, m: UdigSet.Module, s: Sys, t: WrapRoll.Store, c: nat)
    requires Same(s, t) && c !in s.wrappers
    ensures var digest := Digest(c, h(m, t.active), t.active);
      && Enabled(s, digest) && Enabled(Next(s, digest), Rename(c))
      && Same(Next(Next(s, digest), Rename(c)), WrapRoll.Freeze(h, m, t)) && Next(Next(s, digest), Rename(c)).wrappers == s.wrappers
  {
  }

  lemma {:induction false} RollAlone(s: Sys, t: WrapRoll.Store, u: string)
    requires Same(s, t) && WrapRoll.RollReplies(t, u)
    ensures Same(Next(s, Roll(WrapRoll.SetIn(t.blobs[u]).value)), WrapRoll.RollLogs(t, u))
  {
  }

  // ---- Apart, nothing is lost ----------------------------------------------------------------------

  /** A take looks while a wrap has stored the same log and not moved it, or a wrap stores it while a take is under way. */
  ghost predicate Overlaps(s: Sys, step: Step) {
    match step
    case Check(_, u) => exists w :: w in s.wrappers && s.wrappers[w].u == u
    case Digest(_, u, _) => exists c :: c in s.takers && s.takers[c].u == u
    case _ => false
  }

  ghost predicate Apart(first: Sys, run: seq<Step>)
    decreases |run|
  {
    run == [] || (
      && Apart(first, run[..|run| - 1])
      && (After(first, run[..|run| - 1]).Some? ==> !Overlaps(After(first, run[..|run| - 1]).value, run[|run| - 1])))
  }

  /** No log under way from both sides. */
  ghost predicate Separate(s: Sys) {
    && LogsStored(s)
    && (forall c :: c in s.takers ==> s.takers[c].u !in s.wrapped)
    && (forall w :: w in s.wrappers ==> s.wrappers[w].u in s.blobs)
    && (forall c, w :: c in s.takers && w in s.wrappers ==> s.takers[c].u != s.wrappers[w].u)
  }

  lemma {:induction false} StepKeepsSeparate(s: Sys, step: Step)
    requires Separate(s) && Enabled(s, step) && !Overlaps(s, step)
    ensures Separate(Next(s, step))
  {
    LosesExactly(s, step);
  }

  /** While takes and wraps of the same digest stay apart, every wrapped log stays stored. */
  lemma {:induction false} ApartKeepsLogs(first: Sys, run: seq<Step>)
    requires Separate(first) && After(first, run).Some? && Apart(first, run)
    ensures Separate(After(first, run).value) && LogsStored(After(first, run).value)
  {
    if run != [] {
      ApartKeepsLogs(first, run[..|run| - 1]);
      StepKeepsSeparate(After(first, run[..|run| - 1]).value, run[|run| - 1]);
    }
  }

  // ---- Any overlap can lose a log ------------------------------------------------------------------

  lemma {:induction false} Then(first: Sys, run: seq<Step>, s: Sys, step: Step) returns (more: seq<Step>, t: Sys)
    requires After(first, run) == Some(s) && Enabled(s, step)
    ensures more == run + [step] && t == Next(s, step) && After(first, more) == Some(t)
  {
    more, t := run + [step], Next(s, step);
    assert more[..|more| - 1] == run;
  }

  /** A take that has looked, and a wrap that has stored the same log: the take goes on last. */
  lemma {:induction false} LateUnlink(first: Sys, run: seq<Step>, s: Sys, c: nat, w: nat) returns (more: seq<Step>, t: Sys)
    requires After(first, run) == Some(s) && c in s.takers && w in s.wrappers
    requires s.takers[c].u == s.wrappers[w].u && s.takers[c].u in s.blobs
    ensures After(first, more) == Some(t) && run <= more && !LogsStored(t)
  {
    more, t := run, s;
    if s.takers[c].Checked? {
      more, t := Then(first, more, t, Open(c));
    }
    more, t := Then(first, more, t, Rename(w));
    more, t := Then(first, more, t, Unlink(c));
    assert s.takers[c].u in t.wrapped.Keys && s.takers[c].u !in t.blobs.Keys;
  }

  /** From any overlap the run can go on to lose the log. */
  lemma {:induction false} OverlapCanLose(first: Sys, run: seq<Step>, s: Sys, step: Step) returns (more: seq<Step>, t: Sys)
    requires After(first, run) == Some(s) && Separate(s) && Enabled(s, step) && Overlaps(s, step)
    ensures After(first, more) == Some(t) && run + [step] <= more && !LogsStored(t)
  {
    var next, n := Then(first, run, s, step);
    if step.Check? {
      var w :| w in s.wrappers && s.wrappers[w].u == step.u;
      more, t := LateUnlink(first, next, n, step.child, w);
    } else {
      var c :| c in s.takers && s.takers[c].u == step.u;
      more, t := LateUnlink(first, next, n, c, step.child);
    }
  }
}
