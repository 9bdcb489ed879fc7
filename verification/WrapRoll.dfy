/**
  Whole requests against the blob store and the wrapped traffic logs (bio4d/bio4d.c, bio4d/brr.c): put,
  give, take, wrap and roll.  The digest is a function the store knows nothing about, but for its range.
 */
module WrapRoll {
  import opened Text
  import opened Collections
  import opened UdigSet

  type Hash = (Module, string) -> string

  /** A digest names its module and has 40 hex characters. */
  ghost predicate Digests(h: Hash) {
    forall m, b :: CompiledUdig(h(m, b))
  }

  predicate Matches(h: Hash, u: string, bytes: string) {
    exists m :: h(m, bytes) == u
  }

  /** The stored blobs, the logs in spool/wrap by the udig in their names, and the active log. */
  datatype Store = Store(blobs: map<string, string>, wrapped: map<string, string>, active: string)

  // ---- What each request does ----------------------------------------------------------------------

  /** Get, eat, and refused requests change nothing but the traffic log. */
  datatype Verb =
    | Look
    | Put(u: string, bytes: string)       // and give: `bytes` are what the client sent
    | Take(u: string, accepted: bool)     // `accepted` is the client's reply
    | Wrap(order: seq<string>)            // the order of the directory scan
    | Roll(u: string)

  /** A request and its blob request record, logged at the end. */
  datatype Request = Request(verb: Verb, brr: string)

  function PutBlob(h: Hash, s: Store, u: string, bytes: string): Store {
    if Matches(h, u, bytes) then s.(blobs := s.blobs[u := bytes]) else s
  }

  /** A wrapped log is refused; another blob goes when the client took it. */
  function TakeBlob(s: Store, u: string, accepted: bool): Store {
    if u in s.wrapped || u !in s.blobs || !accepted then s else s.(blobs := s.blobs - {u})
  }

  /** The frozen log is stored under its digest, and moved into spool/wrap. */
  function Freeze(h: Hash, m: Module, s: Store): Store {
    var u := h(m, s.active);
    Store(s.blobs[u := s.active], s.wrapped[u := s.active], [])
  }

  /** The frozen log comes first, then the other files of spool/wrap, each once. */
  ghost predicate Listing(h: Hash, m: Module, s: Store, order: seq<string>) {
    && Distinct(order)
    && Elements(order) == Freeze(h, m, s).wrapped.Keys
    && order != [] && order[0] == h(m, s.active)
  }

  function WrapLogs(h: Hash, m: Module, s: Store, order: seq<string>): Store {
    var f := Freeze(h, m, s);
    f.(blobs := f.blobs[h(m, Lines(order)) := Lines(order)])
  }

  /** The udigs a blob prints, if it is a printed set. */
  ghost function SetIn(text: string): (r: Option<set<string>>)
    ensures r.Some? <==> exists us :: Prints(us, text)
    ensures forall us :: Prints(us, text) ==> r == Some(Elements(us))
  {
    if us :| Prints(us, text) then
      assert forall vs :: Prints(vs, text) ==> us == vs by {
        forall vs | Prints(vs, text) ensures us == vs { PrintsOnce(us, vs, text); }
      }
      Some(Elements(us))
    else None
  }

  ghost function RollLogs(s: Store, u: string): Store {
    if u in s.blobs && SetIn(s.blobs[u]).Some? then s.(wrapped := s.wrapped - SetIn(s.blobs[u]).value) else s
  }

  ghost predicate RollReplies(s: Store, u: string) {
    u in s.blobs && SetIn(s.blobs[u]).Some?
  }

  lemma {:induction false} EmptyBlobIsEmptySet()
    ensures SetIn([]) == Some({})
  {
    assert Prints([], []);
    assert Elements<string>([]) == {};
  }

  ghost function Serve(h: Hash, m: Module, s: Store, verb: Verb): Store {
    match verb
    case Look => s
    case Put(u, bytes) => PutBlob(h, s, u, bytes)
    case Take(u, accepted) => TakeBlob(s, u, accepted)
    case Wrap(order) => WrapLogs(h, m, s, order)
    case Roll(u) => RollLogs(s, u)
  }

  ghost function Next(h: Hash, m: Module, s: Store, r: Request): Store {
    var t := Serve(h, m, s, r.verb);
    t.(active := t.active + r.brr)
  }

  ghost predicate Enabled(h: Hash, m: Module, s: Store, r: Request) {
    r.verb.Wrap? ==> Listing(h, m, s, r.verb.order)
  }

  /** The store after a run of requests, if the directory scans were possible. */
  ghost function After(h: Hash, m: Module, s: Store, run: seq<Request>): Option<Store> {
    if run == [] then Some(s)
    else
      var before := After(h, m, s, run[..|run| - 1]);
      if before.Some? && Enabled(h, m, before.value, run[|run| - 1])
      then Some(Next(h, m, before.value, run[|run| - 1]))
      else None
  }

  // ---- The verb callbacks --------------------------------------------------------------------------

  class Server {
    const hash: Hash
    const algorithm: Module
    var blobs: map<string, string>
    var wrapped: map<string, string>
    var active: string

    ghost function View(): Store reads this {
      Store(blobs, wrapped, active)
    }

    constructor (hash: Hash, algorithm: Module)
      ensures View() == Store(map[], map[], [])
      ensures this.hash == hash && this.algorithm == algorithm
    {
      this.hash, this.algorithm, blobs, wrapped, active := hash, algorithm, map[], map[], [];
    }

    method PutRequest(u: string, bytes: string) returns (ok: bool)
      modifies this
      ensures View() == PutBlob(hash, old(View()), u, bytes)
      ensures ok <==> Matches(hash, u, bytes)
    {
      ok := Matches(hash, u, bytes);
      if ok {
        blobs := blobs[u := bytes];
      }
    }

    method TakeRequest(u: string, accepted: bool) returns (sent: Option<string>)
      modifies this
      ensures View() == TakeBlob(old(View()), u, accepted)
      ensures sent.Some? <==> u !in wrapped && u in old(blobs)
      ensures sent.Some? ==> sent.value == old(blobs)[u]
    {
      if u in wrapped || u !in blobs {
        return None;
      }
      sent := Some(blobs[u]);
      if accepted {
        blobs := blobs - {u};
      }
    }

    /** The second half of wrap: scan the directory and print the set. */
    method PrintSet(first: string, names: set<string>) returns (order: seq<string>, text: string)
      requires first in names
      ensures Distinct(order) && Elements(order) == names && order != [] && order[0] == first
      ensures text == Lines(order)
    {
      order, text := [first], first + ['\n'];
      assert Lines(order) == Lines(order[..0]) + first + ['\n'];
      var unread := names - {first};
      while unread != {}
        invariant Distinct(order) && order != [] && order[0] == first && text == Lines(order)
        invariant Elements(order) == names - unread && unread <= names
      {
        var n :| n in unread;
        unread := unread - {n};
        assert (order + [n])[..|order|] == order;
        assert forall i :: 0 <= i < |order| ==> order[i] in Elements(order);
        assert Elements(order + [n]) == Elements(order) + {n};
        order, text := order + [n], text + n + ['\n'];
      }
    }

    method WrapRequest() returns (order: seq<string>, udig: string)
      modifies this
      ensures Listing(hash, algorithm, old(View()), order)
      ensures View() == WrapLogs(hash, algorithm, old(View()), order)
      ensures active == [] && order[0] in wrapped && wrapped[order[0]] == old(active)
      ensures udig == hash(algorithm, Lines(order))
    {
      var frozen := hash(algorithm, active);
      blobs, wrapped, active := blobs[frozen := active], wrapped[frozen := active], [];
      var text;
      order, text := PrintSet(frozen, wrapped.Keys);
      udig := hash(algorithm, text);
      blobs := blobs[udig := text];
    }

    /** Removes the files of spool/wrap whose names are in the set, one at a time. */
    method RemoveLogs(udigs: set<string>)
      modifies this`wrapped
      ensures wrapped == old(wrapped) - udigs
    {
      var unread := wrapped.Keys;
      while unread != {}
        invariant wrapped == old(wrapped) - (udigs - unread)
        invariant unread <= old(wrapped).Keys
        decreases |unread|
      {
        var n :| n in unread;
        unread := unread - {n};
        if n in udigs {
          wrapped := wrapped - {n};
        }
        assert wrapped == old(wrapped) - (udigs - unread);
      }
    }

    method RollRequest(u: string) returns (ok: bool)
      modifies this
      ensures View() == RollLogs(old(View()), u)
      ensures ok <==> RollReplies(old(View()), u)
    {
      if u !in blobs {
        return false;
      }
      var text := blobs[u];
      if text == [] {
        EmptyBlobIsEmptySet();
        assert wrapped - {} == wrapped;
        return true;
      }
      var blob := new char[|text|](i requires 0 <= i < |text| => text[i]);
      assert blob[..] == text;
      var parsed := Blob2UdigSet(blob);
      if parsed.None? {
        return false;
      }
      RemoveLogs(parsed.value.udigs);
      ok := true;
    }

    /** One request and its record; `done` is the request with the order in which a wrap scanned the directory. */
    method ServeRequest(r: Request) returns (ghost done: Request)
      modifies this
      ensures SameRequest(r, done) && Enabled(hash, algorithm, old(View()), done)
      ensures View() == Next(hash, algorithm, old(View()), done)
    {
      done := r;
      match r.verb {
        case Look =>
        case Put(u, bytes) => var ok := PutRequest(u, bytes);
        case Take(u, accepted) => var sent := TakeRequest(u, accepted);
        case Wrap(_) =>
          var order, udig := WrapRequest();
          done := r.(verb := Wrap(order));
        case Roll(u) => var ok := RollRequest(u);
      }
      active := active + r.brr;
    }
  }

  /** But for the order of a directory scan. */
  predicate SameRequest(r: Request, done: Request) {
    r.brr == done.brr && (r.verb == done.verb || (r.verb.Wrap? && done.verb.Wrap?))
  }

  lemma {:induction false} AfterOneMore(h: Hash, m: Module, s: Store, run: seq<Request>, t: Store, r: Request)
    requires After(h, m, s, run) == Some(t) && Enabled(h, m, t, r)
    ensures After(h, m, s, run + [r]) == Some(Next(h, m, t, r))
  {
    assert (run + [r])[..|run|] == run;
  }

  /**
    A new server over any requests: the run it makes, after which every log in spool/wrap is stored, and the logs
    moved there and the active log hold the records of all requests, each once and in order.
   */
  method ServeAll(hash: Hash, algorithm: Module, requests: seq<Request>) returns (server: Server, ghost run: seq<Request>)
    requires Digests(hash)
    ensures fresh(server) && |run| == |requests| && forall k :: 0 <= k < |run| ==> SameRequest(requests[k], run[k])
    ensures After(hash, algorithm, Store(map[], map[], []), run) == Some(server.View())
    ensures LogsStored(hash, server.View())
    ensures Joined(Moved(hash, algorithm, Store(map[], map[], []), run)) + server.active == Joined(BrrsOf(requests))
  {
    ghost var first := Store(map[], map[], []);
    assert After(hash, algorithm, first, []) == Some(first) && LogsStored(hash, first);
    hide Digests, LogsStored, SameRequest, After, Enabled, Next;
    server := new Server(hash, algorithm);
    run := [];
    for i := 0 to |requests|
      invariant fresh(server) && server.hash == hash && server.algorithm == algorithm && |run| == i
      invariant forall k :: 0 <= k < i ==> SameRequest(requests[k], run[k])
      invariant After(hash, algorithm, first, run) == Some(server.View())
    {
      ghost var before := server.View();
      ghost var done := server.ServeRequest(requests[i]);
      AfterOneMore(hash, algorithm, first, run, before, done);
      run := run + [done];
    }
    EveryRunKeepsLogs(hash, algorithm, first, run);
    EachRecordOnce(hash, algorithm, first, run);
    SameBrrs(requests, run);
  }

  lemma {:induction false} SameBrrs(requests: seq<Request>, run: seq<Request>)
    requires |run| == |requests| && forall k :: 0 <= k < |run| ==> SameRequest(requests[k], run[k])
    ensures BrrsOf(requests) == BrrsOf(run)
  {
  }

  // ---- Wrapped logs stay stored --------------------------------------------------------------------

  /** Each log in spool/wrap has a stored blob of the same udig, and both have the digest they are named by. */
  ghost predicate LogsStored(h: Hash, s: Store) {
    && (forall u :: u in s.wrapped ==> CompiledUdig(u) && u in s.blobs && Matches(h, u, s.wrapped[u]))
    && (forall u :: u in s.blobs ==> Matches(h, u, s.blobs[u]))
  }

  ghost predicate SameBytes(s: Store) {
    forall u :: u in s.wrapped && u in s.blobs ==> s.blobs[u] == s.wrapped[u]
  }

  lemma {:induction false} WrapKeepsLogs(h: Hash, m: Module, s: Store, order: seq<string>)
    requires Digests(h) && LogsStored(h, s)
    ensures LogsStored(h, WrapLogs(h, m, s, order))
  {
    var u, v, f := h(m, s.active), h(m, Lines(order)), Freeze(h, m, s);
    assert Matches(h, u, s.active) && CompiledUdig(u);
    assert LogsStored(h, f);
    assert Matches(h, v, Lines(order));
  }

  lemma {:induction false} TakeAndRollKeepLogs(h: Hash, s: Store, u: string, accepted: bool)
    requires LogsStored(h, s)
    ensures LogsStored(h, TakeBlob(s, u, accepted)) && LogsStored(h, RollLogs(s, u))
  {
  }

  lemma {:induction false} StepKeepsLogs(h: Hash, m: Module, s: Store, r: Request)
    requires Digests(h) && LogsStored(h, s)
    ensures LogsStored(h, Next(h, m, s, r))
  {
    var t := Serve(h, m, s, r.verb);
    assert LogsStored(h, t) by {
      match r.verb
      case Look =>
      case Put(u, bytes) =>
      case Take(u, accepted) => TakeAndRollKeepLogs(h, s, u, accepted);
      case Wrap(order) => WrapKeepsLogs(h, m, s, order);
      case Roll(u) => TakeAndRollKeepLogs(h, s, u, false);
    }
  }

  /** In every run the wrapped logs stay stored: take never removes one. */
  lemma {:induction false} EveryRunKeepsLogs(h: Hash, m: Module, s: Store, run: seq<Request>)
    requires Digests(h) && LogsStored(h, s) && After(h, m, s, run).Some?
    ensures LogsStored(h, After(h, m, s, run).value)
  {
    if run != [] {
      var less := run[..|run| - 1];
      EveryRunKeepsLogs(h, m, s, less);
      StepKeepsLogs(h, m, After(h, m, s, less).value, run[|run| - 1]);
    }
  }

  /** A request that stores other bytes under the udig of a wrapped log: two texts with one digest. */
  ghost predicate Clashes(h: Hash, m: Module, s: Store, verb: Verb) {
    match verb
    case Put(u, bytes) => Matches(h, u, bytes) && u in s.wrapped && s.wrapped[u] != bytes
    case Wrap(order) =>
      var f := Freeze(h, m, s);
      h(m, Lines(order)) in f.wrapped && f.wrapped[h(m, Lines(order))] != Lines(order)
    case _ => false
  }

  /** The stored bytes stay those of the wrapped log exactly while no two texts share a digest. */
  lemma {:induction false} SameBytesExactly(h: Hash, m: Module, s: Store, r: Request)
    requires SameBytes(s) && LogsStored(h, s)
    ensures SameBytes(Next(h, m, s, r)) <==> !Clashes(h, m, s, r.verb)
  {
    var t := Next(h, m, s, r);
    match r.verb
    case Look =>
    case Put(u, bytes) => assert Clashes(h, m, s, r.verb) ==> u in t.wrapped && u in t.blobs;
    case Take(u, accepted) =>
    case Wrap(order) =>
      var u := h(m, Lines(order));
      assert Clashes(h, m, s, r.verb) ==> u in t.wrapped && u in t.blobs;
    case Roll(u) =>
  }

  // ---- Rolling what a wrap returned ----------------------------------------------------------------

  lemma {:induction false} ListingPrints(h: Hash, m: Module, s: Store, order: seq<string>)
    requires Digests(h) && LogsStored(h, s) && Listing(h, m, s, order)
    ensures Prints(order, Lines(order)) && SetIn(Lines(order)) == Some(Elements(order))
  {
    forall i | 0 <= i < |order| ensures Udig(order[i]) {
      assert order[i] in Elements(order);
      CompiledIsUdig(order[i]);
    }
    assert Prints(order, Lines(order));
  }

  /** The set blob of a wrap, as long as it is stored, rolls to success and removes exactly the logs it lists. */
  lemma {:induction false} RollRemovesWhatWrapListed(h: Hash, m: Module, s: Store, order: seq<string>, t: Store)
    requires Digests(h) && LogsStored(h, s) && Listing(h, m, s, order)
    requires var u := h(m, Lines(order)); u in t.blobs && t.blobs[u] == Lines(order)
    ensures var u := h(m, Lines(order));
      RollReplies(t, u) && RollLogs(t, u) == t.(wrapped := t.wrapped - Elements(order))
  {
    ListingPrints(h, m, s, order);
  }

  /** Rolled at once, it empties spool/wrap. */
  lemma {:induction false} RollAtOnceRemovesAll(h: Hash, m: Module, s: Store, order: seq<string>, brr: string)
    requires Digests(h) && LogsStored(h, s) && Listing(h, m, s, order)
    ensures var t := Next(h, m, s, Request(Wrap(order), brr)); var u := h(m, Lines(order));
      RollReplies(t, u) && RollLogs(t, u).wrapped == map[]
  {
    var t := Next(h, m, s, Request(Wrap(order), brr));
    RollRemovesWhatWrapListed(h, m, s, order, t);
  }

  /** A request that takes a blob away or stores other bytes in its place. */
  ghost predicate Disturbs(h: Hash, m: Module, s: Store, verb: Verb, u: string, text: string) {
    match verb
    case Put(v, bytes) => v == u && Matches(h, v, bytes) && bytes != text
    case Take(v, accepted) => v == u && accepted && u !in s.wrapped
    case Wrap(order) =>
      || (h(m, Lines(order)) == u && Lines(order) != text)
      || (h(m, Lines(order)) != u && h(m, s.active) == u && s.active != text)
    case _ => false
  }

  ghost predicate Undisturbed(h: Hash, m: Module, s: Store, run: seq<Request>, u: string, text: string)
    requires After(h, m, s, run).Some?
    decreases |run|
  {
    run == [] || (
      && Undisturbed(h, m, s, run[..|run| - 1], u, text)
      && !Disturbs(h, m, After(h, m, s, run[..|run| - 1]).value, run[|run| - 1].verb, u, text))
  }

  lemma {:induction false} BlobStays(h: Hash, m: Module, s: Store, run: seq<Request>, u: string, text: string)
    requires After(h, m, s, run).Some? && Undisturbed(h, m, s, run, u, text)
    requires u in s.blobs && s.blobs[u] == text
    ensures var t := After(h, m, s, run).value; u in t.blobs && t.blobs[u] == text
  {
    if run != [] {
      BlobStays(h, m, s, run[..|run| - 1], u, text);
    }
  }

  /** A blob stays as it is through one request exactly when the request does not disturb it. */
  lemma {:induction false} DisturbsExactly(h: Hash, m: Module, s: Store, r: Request, u: string)
    requires u in s.blobs
    ensures var t := Next(h, m, s, r);
      (u in t.blobs && t.blobs[u] == s.blobs[u]) <==> !Disturbs(h, m, s, r.verb, u, s.blobs[u])
  {
  }

  /** Whatever requests come between, the roll of a wrap's udig removes exactly the logs that wrap listed. */
  lemma {:induction false} WrapThenRoll(h: Hash, m: Module, s: Store, order: seq<string>, brr: string, run: seq<Request>)
    requires Digests(h) && LogsStored(h, s) && Listing(h, m, s, order)
    requires var t := Next(h, m, s, Request(Wrap(order), brr));
      After(h, m, t, run).Some? && Undisturbed(h, m, t, run, h(m, Lines(order)), Lines(order))
    ensures var t := After(h, m, Next(h, m, s, Request(Wrap(order), brr)), run).value;
      && RollReplies(t, h(m, Lines(order)))
      && RollLogs(t, h(m, Lines(order))) == t.(wrapped := t.wrapped - Elements(order))
  {
    var t := Next(h, m, s, Request(Wrap(order), brr));
    BlobStays(h, m, t, run, h(m, Lines(order)), Lines(order));
    RollRemovesWhatWrapListed(h, m, s, order, After(h, m, t, run).value);
  }

  // ---- Forgotten logs ------------------------------------------------------------------------------

  /** The run has a wrap that froze a log with this digest. */
  ghost predicate FrozeAgain(h: Hash, m: Module, s: Store, run: seq<Request>, u: string)
    requires After(h, m, s, run).Some?
    decreases |run|
  {
    run != [] && (
      || FrozeAgain(h, m, s, run[..|run| - 1], u)
      || (run[|run| - 1].verb.Wrap? && h(m, After(h, m, s, run[..|run| - 1]).value.active) == u))
  }

  /** A log not in spool/wrap comes into it only when a log of the same digest is frozen. */
  lemma {:induction false} ForgottenStaysForgotten(h: Hash, m: Module, s: Store, run: seq<Request>, u: string)
    requires After(h, m, s, run).Some? && u !in s.wrapped
    ensures u in After(h, m, s, run).value.wrapped ==> FrozeAgain(h, m, s, run, u)
  {
    if run != [] {
      ForgottenStaysForgotten(h, m, s, run[..|run| - 1], u);
    }
  }

  /** After an ok roll no later wrap lists a rolled log, unless a log of the same digest was frozen since. */
  lemma {:induction false} RolledLogsStayOut(h: Hash, m: Module, s: Store, u: string, brr: string, run: seq<Request>,
                         order: seq<string>, l: string)
    requires RollReplies(s, u) && l in SetIn(s.blobs[u]).value
    requires var t := Next(h, m, s, Request(Roll(u), brr)); After(h, m, t, run).Some?
    requires var t := Next(h, m, s, Request(Roll(u), brr)); Listing(h, m, After(h, m, t, run).value, order)
    ensures var t := Next(h, m, s, Request(Roll(u), brr));
      l in order ==> FrozeAgain(h, m, t, run, l) || h(m, After(h, m, t, run).value.active) == l
  {
    var t := Next(h, m, s, Request(Roll(u), brr));
    ForgottenStaysForgotten(h, m, t, run, l);
    var v := After(h, m, t, run).value;
    assert l in order <==> l in Elements(order);
  }

  // ---- The chain of wraps --------------------------------------------------------------------------

  ghost predicate NoWraps(run: seq<Request>) {
    forall k :: 0 <= k < |run| ==> !run[k].verb.Wrap?
  }

  lemma {:induction false} LogOnlyGrows(h: Hash, m: Module, s: Store, run: seq<Request>)
    requires After(h, m, s, run).Some? && NoWraps(run)
    ensures s.active <= After(h, m, s, run).value.active
  {
    if run != [] {
      LogOnlyGrows(h, m, s, run[..|run| - 1]);
    }
  }

  /** The record of any request is in the log that the next wrap freezes, stores and lists first. */
  lemma {:induction false} NextWrapHasTheRecord(h: Hash, m: Module, s: Store, r: Request, run: seq<Request>, order: seq<string>)
    requires After(h, m, Next(h, m, s, r), run).Some? && NoWraps(run)
    requires Listing(h, m, After(h, m, Next(h, m, s, r), run).value, order)
    ensures var t := After(h, m, Next(h, m, s, r), run).value;
      && Serve(h, m, s, r.verb).active + r.brr <= t.active
      && order[0] == h(m, t.active)
      && WrapLogs(h, m, t, order).wrapped[order[0]] == t.active
  {
    LogOnlyGrows(h, m, Next(h, m, s, r), run);
  }

  /** What the wraps of a run moved into spool/wrap under the name they list first, one after the other. */
  ghost function Moved(h: Hash, m: Module, s: Store, run: seq<Request>): seq<string>
    requires After(h, m, s, run).Some?
    decreases |run|
  {
    if run == [] then []
    else
      var r, t := run[|run| - 1], After(h, m, s, run).value;
      Moved(h, m, s, run[..|run| - 1]) +
        if r.verb.Wrap? && r.verb.order != [] && r.verb.order[0] in t.wrapped then [t.wrapped[r.verb.order[0]]] else []
  }

  /** Texts one after the other. */
  function Joined(logs: seq<string>): string {
    if logs == [] then [] else Joined(logs[..|logs| - 1]) + logs[|logs| - 1]
  }

  /** The records of the requests, in their order. */
  function BrrsOf(run: seq<Request>): seq<string> {
    seq(|run|, k requires 0 <= k < |run| => run[k].brr)
  }

  lemma {:induction false} JoinedSnoc(logs: seq<string>, log: string)
    ensures Joined(logs + [log]) == Joined(logs) + log
  {
    assert (logs + [log])[..|logs|] == logs;
  }

  /** After a wrap the active log holds the record of the wrap and nothing else. */
  lemma {:induction false} WrapCutsTheLog(h: Hash, m: Module, s: Store, order: seq<string>, brr: string)
    requires Listing(h, m, s, order)
    ensures var t := Next(h, m, s, Request(Wrap(order), brr));
      t.active == brr && order != [] && order[0] in t.wrapped && t.wrapped[order[0]] == s.active
  {
    assert [] + brr == brr;
  }

  /** A request that wraps nothing adds its record to the active log. */
  lemma {:induction false} OthersAppend(h: Hash, m: Module, s: Store, r: Request)
    requires !r.verb.Wrap?
    ensures Next(h, m, s, r).active == s.active + r.brr
  {
  }

  lemma {:induction false} OneMoreRecord(h: Hash, m: Module, s: Store, run: seq<Request>)
    requires After(h, m, s, run).Some? && run != []
    ensures var less, r := run[..|run| - 1], run[|run| - 1];
      && After(h, m, s, less).Some?
      && Joined(Moved(h, m, s, run)) + After(h, m, s, run).value.active
          == Joined(Moved(h, m, s, less)) + After(h, m, s, less).value.active + r.brr
  {
    hide Next, Listing;
    var less, r := run[..|run| - 1], run[|run| - 1];
    var t := After(h, m, s, less).value;
    var logs := Moved(h, m, s, less);
    if r.verb.Wrap? {
      assert Listing(h, m, t, r.verb.order);
      WrapCutsTheLog(h, m, t, r.verb.order, r.brr);
      JoinedSnoc(logs, t.active);
    } else {
      OthersAppend(h, m, t, r);
      assert Moved(h, m, s, run) == logs;
      assert Joined(logs) + (t.active + r.brr) == Joined(logs) + t.active + r.brr;
    }
  }

  /** In every run the logs moved into spool/wrap and the active log are what was there and the records of all requests, each once and in order. */
  lemma {:induction false} EachRecordOnce(h: Hash, m: Module, s: Store, run: seq<Request>)
    requires After(h, m, s, run).Some?
    ensures Joined(Moved(h, m, s, run)) + After(h, m, s, run).value.active == s.active + Joined(BrrsOf(run))
    decreases |run|
  {
    if run == [] {
      assert [] + s.active == s.active + [];
    } else {
      hide After, Moved, Joined;
      var less, r := run[..|run| - 1], run[|run| - 1];
      OneMoreRecord(h, m, s, run);
      EachRecordOnce(h, m, s, less);
      assert BrrsOf(run) == BrrsOf(less) + [r.brr];
      JoinedSnoc(BrrsOf(less), r.brr);
      assert s.active + (Joined(BrrsOf(less)) + r.brr) == s.active + Joined(BrrsOf(less)) + r.brr;
    }
  }
}
