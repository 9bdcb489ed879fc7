/**
  The set of udigs that "wrap" prints and "roll" reads back (bio4d/brr.c), one udig to a line, and the
  names of the files in spool/wrap.
 */
module UdigSet {
  import opened Text
  import opened Collections

  const MAX_ALGORITHM := 8
  const MAX_UDIG := 137

  predicate Graphic(c: char) {
    '!' <= c <= '~'
  }

  predicate AllGraphic(s: string) {
    forall i :: 0 <= i < |s| ==> '!' <= s[i] <= '~'
  }

  // ---- Lines ---------------------------------------------------------------------------------------

  /** A colon ends the algorithm, and stands at one of the positions 1 to 7. */
  predicate HasAlgorithm(u: string) {
    exists i :: 1 <= i < 8 && i < |u| && u[i] == ':'
  }

  /** A udig the parser takes.  The last letter, z, cannot start one, and the digest may be empty. */
  predicate Udig(u: string) {
    AllGraphic(u) && u != [] && 'a' <= u[0] < 'z' && HasAlgorithm(u)
  }

  /** What wrap prints. */
  function Lines(us: seq<string>): string {
    if us == [] then [] else Lines(us[..|us| - 1]) + us[|us| - 1] + ['\n']
  }

  ghost predicate UdigList(us: seq<string>) {
    Distinct(us) && forall i :: 0 <= i < |us| ==> Udig(us[i])
  }

  /** The blob is a list of distinct udigs, one to a line. */
  ghost predicate Prints(us: seq<string>, blob: string) {
    UdigList(us) && blob == Lines(us)
  }

  lemma {:induction false} LinesConcat(a: seq<string>, b: seq<string>)
    ensures Lines(a + b) == Lines(a) + Lines(b)
  {
    if b == [] {
      assert a + b == a;
    } else {
      assert (a + b)[..|a + b| - 1] == a + b[..|b| - 1];
      LinesConcat(a, b[..|b| - 1]);
    }
  }

  lemma {:induction false} FirstLine(us: seq<string>)
    requires us != []
    ensures Lines(us) == us[0] + ['\n'] + Lines(us[1..])
  {
    LinesConcat([us[0]], us[1..]);
    assert [us[0]] + us[1..] == us;
    assert Lines([us[0]]) == Lines([us[0]][..0]) + us[0] + ['\n'];
  }

  function FirstNewline(s: string): nat {
    if s == [] || s[0] == '\n' then 0 else 1 + FirstNewline(s[1..])
  }

  lemma {:induction false} LineEnds(u: string, a: string)
    requires AllGraphic(u)
    ensures FirstNewline(u + ['\n'] + a) == |u|
  {
    var x := u + ['\n'] + a;
    if u != [] {
      assert Graphic(u[0]) && x[0] == u[0];
      assert x[1..] == u[1..] + ['\n'] + a;
      LineEnds(u[1..], a);
    }
  }

  /** Two texts that agree and start with whole lines start with the same line. */
  lemma {:induction false} SameLine(u: string, v: string, a: string, b: string)
    requires AllGraphic(u) && AllGraphic(v) && u + ['\n'] + a == v + ['\n'] + b
    ensures u == v && a == b
  {
    var x, y := u + ['\n'] + a, v + ['\n'] + b;
    LineEnds(u, a);
    LineEnds(v, b);
    assert u == x[..|u|] && v == y[..|v|];
    assert a == x[|u| + 1..] && b == y[|v| + 1..];
  }

  /** Lines already read are the first lines of every list that prints the blob. */
  lemma {:induction false} ReadLines(done: seq<string>, rest: string, us: seq<string>)
    requires UdigList(done) && Prints(us, Lines(done) + rest)
    ensures |done| <= |us| && us[..|done|] == done && rest == Lines(us[|done|..])
    decreases |done|
  {
    if done == [] {
      assert us[0..] == us;
    } else {
      var d, less := done[|done| - 1], done[..|done| - 1];
      assert Lines(done) + rest == Lines(less) + (d + ['\n'] + rest);
      ReadLines(less, d + ['\n'] + rest, us);
      var tail := us[|less|..];
      assert tail != [];
      FirstLine(tail);
      assert Udig(us[|less|]) && Udig(d);
      SameLine(d, tail[0], rest, Lines(tail[1..]));
      assert us[..|done|] == us[..|less|] + [us[|less|]];
      assert done == less + [d];
      assert tail[1..] == us[|done|..];
    }
  }

  /** A blob prints at most one list. */
  lemma {:induction false} PrintsOnce(us: seq<string>, vs: seq<string>, blob: string)
    requires Prints(us, blob) && Prints(vs, blob)
    ensures us == vs
  {
    assert Lines(us) + [] == blob;
    ReadLines(us, [], vs);
    assert vs[|us|..] == [];
    assert vs[..|us|] == vs;
  }

  // ---- The parser ----------------------------------------------------------------------------------

  datatype State = NewUdig | InAlgorithm | InDigest | PutUdig

  datatype Parsed = Parsed(udigs: set<string>, algorithms: set<string>)

  function Algorithm(u: string): string {
    if u == [] || u[0] == ':' then [] else [u[0]] + Algorithm(u[1..])
  }

  /** A line not yet finished: what the states know about the characters `p` read so far. */
  ghost predicate Partial(state: State, p: string, colon: nat) {
    match state
    case NewUdig => p == []
    case InAlgorithm => Begun(p) && forall i :: 0 <= i < |p| ==> p[i] != ':'
    case InDigest => Begun(p) && ColonAt(p, colon)
    case PutUdig => Begun(p) && ColonAt(p, colon)
  }

  ghost predicate Begun(p: string) {
    AllGraphic(p) && p != [] && 'a' <= p[0] < 'z'
  }

  ghost predicate ColonAt(p: string, colon: nat) {
    1 <= colon < MAX_ALGORITHM && colon < |p| && p[colon] == ':' && forall i :: 0 <= i < colon ==> p[i] != ':'
  }

  lemma {:induction false} AlgorithmOf(u: string, colon: nat)
    requires colon < |u| && u[colon] == ':' && forall i :: 0 <= i < colon ==> u[i] != ':'
    ensures Algorithm(u) == u[..colon]
    decreases colon
  {
    if colon > 0 {
      AlgorithmOf(u[1..], colon - 1);
      assert u[..colon] == [u[0]] + u[1..][..colon - 1];
    }
  }

  /** The line `u` stands at `start`, with its newline. */
  ghost predicate LineAt(blob: string, start: nat, u: string) {
    && start + |u| < |blob| && blob[start + |u|] == '\n'
    && forall i {:trigger u[i]} :: 0 <= i < |u| ==> blob[start + i] == u[i]
  }

  lemma {:induction false} LineAtStart(blob: string, start: nat, u: string, more: string)
    requires start <= |blob| && blob[start..] == u + ['\n'] + more
    ensures LineAt(blob, start, u)
  {
    var rest := u + ['\n'] + more;
    assert forall i :: 0 <= i < |rest| ==> rest[i] == blob[start + i];
    assert rest[|u|] == '\n';
    assert forall i :: 0 <= i < |u| ==> rest[i] == u[i];
  }

  /** The rest of the blob begins with a whole line, if the blob prints any list. */
  lemma {:induction false} NextLine(blob: string, done: seq<string>, start: nat, us: seq<string>)
    requires start < |blob| && UdigList(done) && blob[..start] == Lines(done) && Prints(us, blob)
    ensures |done| < |us| && us[..|done|] == done && Udig(us[|done|]) && LineAt(blob, start, us[|done|])
  {
    var rest := blob[start..];
    assert blob == blob[..start] + rest;
    ReadLines(done, rest, us);
    var tail := us[|done|..];
    FirstLine(tail);
    LineAtStart(blob, start, tail[0], Lines(tail[1..]));
  }

  /** A character that the state refuses. */
  predicate Refuses(state: State, position: nat, c: char) {
    match state
    case NewUdig => !('a' <= c < 'z')
    case InAlgorithm => position >= MAX_ALGORITHM || (c != ':' && !Graphic(c))
    case InDigest => c != '\n' && !Graphic(c)
    case PutUdig => false
  }

  lemma {:induction false} NoNewline(blob: string, start: nat, b: nat)
    requires start <= b <= |blob| && AllGraphic(blob[start..b])
    ensures forall k :: start <= k < b ==> blob[k] != '\n'
  {
    forall k | start <= k < b ensures blob[k] != '\n' {
      assert blob[start..b][k - start] == blob[k] && Graphic(blob[start..b][k - start]);
    }
  }

  lemma {:induction false} PartialIsShort(blob: string, start: nat, b: nat, u: string)
    requires start <= b <= |blob| && AllGraphic(blob[start..b]) && LineAt(blob, start, u)
    ensures |blob[start..b]| <= |u| && blob[start..b] == u[..b - start]
  {
    var p := blob[start..b];
    NoNewline(blob, start, b);
  }

  /** A line of a printed list is never refused: so what the parser refuses prints no list. */
  lemma {:induction false} PrintedIsNotRefused(blob: string, done: seq<string>, start: nat, b: nat, state: State, colon: nat, us: seq<string>)
    requires start <= b < |blob| && UdigList(done) && blob[..start] == Lines(done)
    requires Partial(state, blob[start..b], colon) && Prints(us, blob)
    ensures !Refuses(state, b - start, blob[b])
  {
    NextLine(blob, done, start, us);
    var u, p := us[|done|], blob[start..b];
    PartialIsShort(blob, start, b, u);
    assert |p| < |u| ==> blob[b] == u[|p|] && Graphic(u[|p|]);
    var i :| 1 <= i < MAX_ALGORITHM && i < |u| && u[i] == ':';
    assert i < |p| ==> p[i] == ':';
  }

  /** A printed list has no line twice: so what the parser finds twice prints no list. */
  lemma {:induction false} PrintedIsNew(blob: string, done: seq<string>, start: nat, b: nat, us: seq<string>)
    requires start <= b < |blob| && UdigList(done) && blob[..start] == Lines(done)
    requires AllGraphic(blob[start..b]) && blob[b] == '\n' && Prints(us, blob)
    ensures blob[start..b] !in done
  {
    NextLine(blob, done, start, us);
    var u, p := us[|done|], blob[start..b];
    PartialIsShort(blob, start, b, u);
    forall k | start <= k < start + |u| ensures blob[k] != '\n' {
      assert blob[start + (k - start)] == u[k - start] && Graphic(u[k - start]);
    }
    assert p == u;
    forall i | 0 <= i < |done| ensures done[i] != u {
      assert done[i] == us[i];
    }
  }

  lemma {:induction false} UdigJoins(done: seq<string>, u: string, colon: nat)
    requires UdigList(done) && Partial(PutUdig, u, colon) && u !in done
    ensures UdigList(done + [u]) && Elements(done + [u]) == Elements(done) + {u}
    ensures Algorithm(u) == u[..colon]
  {
    var more := done + [u];
    assert u[colon] == ':';
    AlgorithmOf(u, colon);
    forall x ensures x in Elements(more) <==> x in Elements(done) + {u} {
      assert x in more <==> x in done || x == u;
    }
  }

  /** A finished line joins the list. */
  lemma {:induction false} LineDone(blob: string, done: seq<string>, start: nat, b: nat, colon: nat)
    requires start <= b < |blob| && UdigList(done) && blob[..start] == Lines(done) && blob[b] == '\n'
    requires Partial(PutUdig, blob[start..b], colon) && blob[start..b] !in done
    ensures UdigList(done + [blob[start..b]]) && blob[..b + 1] == Lines(done + [blob[start..b]])
    ensures Elements(done + [blob[start..b]]) == Elements(done) + {blob[start..b]}
    ensures Algorithm(blob[start..b]) == blob[start..start + colon]
  {
    hide UdigList, Elements, Algorithm;
    var u := blob[start..b];
    UdigJoins(done, u, colon);
    assert blob[..b + 1] == blob[..start] + u + ['\n'];
    assert (done + [u])[..|done|] == done;
    assert u[..colon] == blob[start..start + colon];
  }

  ghost predicate ListParsed(us: seq<string>, r: Parsed) {
    r.udigs == Elements(us) && r.algorithms == set u | u in us :: Algorithm(u)
  }

  /** What blob2udig_set keeps while it reads. */
  ghost predicate Reading(blob: string, done: seq<string>, start: nat, b: nat, state: State, colon: nat, r: Parsed) {
    && start <= b <= |blob| && UdigList(done) && blob[..start] == Lines(done) && ListParsed(done, r)
    && Partial(state, blob[start..b], colon)
    && (state.PutUdig? ==> b < |blob| && blob[b] == '\n')
  }

  /** One character in the states before the newline. */
  lemma {:induction false} ReadOn(blob: string, done: seq<string>, start: nat, b: nat, state: State, colon: nat, r: Parsed)
    requires Reading(blob, done, start, b, state, colon, r) && b < |blob| && !state.PutUdig?
    requires !Refuses(state, b - start, blob[b])
    ensures state.NewUdig? ==> Reading(blob, done, start, b + 1, InAlgorithm, colon, r)
    ensures state.InAlgorithm? && blob[b] == ':' ==> Reading(blob, done, start, b + 1, InDigest, b - start, r)
    ensures state.InAlgorithm? && blob[b] != ':' ==> Reading(blob, done, start, b + 1, InAlgorithm, colon, r)
    ensures state.InDigest? && blob[b] == '\n' ==> Reading(blob, done, start, b, PutUdig, colon, r)
    ensures state.InDigest? && blob[b] != '\n' ==> Reading(blob, done, start, b + 1, InDigest, colon, r)
  {
    var p, c := blob[start..b], blob[b];
    assert blob[start..b + 1] == p + [c];
    if !state.InDigest? || c != '\n' {
      assert AllGraphic(p + [c]) by {
        assert AllGraphic(p);
        assert Graphic(c);
      }
    }
  }

  /** The parse starts before the first line. */
  lemma {:induction false} ReadingStarts(blob: string)
    ensures Reading(blob, [], 0, 0, NewUdig, 0, Parsed({}, {}))
  {
    assert blob[..0] == Lines([]) && blob[0..0] == [];
  }

  lemma {:induction false} ReadingBounds(blob: string, done: seq<string>, start: nat, b: nat, state: State, colon: nat, r: Parsed)
    requires Reading(blob, done, start, b, state, colon, r)
    ensures start <= b <= |blob| && r.udigs == Elements(done)
    ensures state.PutUdig? ==> b < |blob| && blob[b] == '\n' && start + colon < b && AllGraphic(blob[start..b])
  {
  }

  /** At the newline: the line joins the set, and the next one begins. */
  lemma {:induction false} ReadLine(blob: string, done: seq<string>, start: nat, b: nat, colon: nat, r: Parsed)
    requires Reading(blob, done, start, b, PutUdig, colon, r) && blob[start..b] !in r.udigs
    requires start + colon < b
    ensures Reading(blob, done + [blob[start..b]], b + 1, b + 1, NewUdig, colon,
                    Parsed(r.udigs + {blob[start..b]}, r.algorithms + {blob[start..start + colon]}))
  {
    LineDone(blob, done, start, b, colon);
    assert blob[b + 1..b + 1] == [];
  }

  /** A line read twice. */
  lemma {:induction false} ReadTwice(blob: string, done: seq<string>, start: nat, b: nat, colon: nat, r: Parsed)
    requires Reading(blob, done, start, b, PutUdig, colon, r) && blob[start..b] in r.udigs
    ensures forall us :: !Prints(us, blob)
  {
    forall us ensures !Prints(us, blob) {
      if Prints(us, blob) {
        PrintedIsNew(blob, done, start, b, us);
      }
    }
  }

  lemma {:induction false} ReadRefused(blob: string, done: seq<string>, start: nat, b: nat, state: State, colon: nat, r: Parsed)
    requires Reading(blob, done, start, b, state, colon, r) && b < |blob| && Refuses(state, b - start, blob[b])
    ensures forall us :: !Prints(us, blob)
  {
    forall us ensures !Prints(us, blob) {
      if Prints(us, blob) {
        PrintedIsNotRefused(blob, done, start, b, state, colon, us);
      }
    }
  }

  /**
    The state machine of blob2udig_set over the blob in memory; it overwrites each newline with a null and
    steps back on it.  It accepts exactly the blobs that print a list of distinct udigs, and returns its
    elements.  The panic on an unexpected state at the end cannot happen.
   */
  method Blob2UdigSet(blob: array<char>) returns (r: Option<Parsed>)
    requires blob.Length > 0
    modifies blob
    ensures r.Some? ==> exists us :: Prints(us, old(blob[..])) && ListParsed(us, r.value)
    ensures r.None? ==> forall us :: !Prints(us, old(blob[..]))
  {
    hide Reading, Prints, ListParsed, Refuses, AllGraphic;
    ghost var was := blob[..];
    if blob[blob.Length - 1] != '\n' {
      forall us ensures !Prints(us, was) {
        LastIsNewline(us, was);
      }
      return None;
    }
    var b: nat, start: nat, colon: nat, state := 0, 0, 0, NewUdig;
    var udigs: set<string>, algorithms: set<string> := {}, {};
    ghost var done: seq<string> := [];
    ReadingStarts(was);
    while b < blob.Length
      invariant Reading(was, done, start, b, state, colon, Parsed(udigs, algorithms))
      invariant blob.Length == |was| && was[|was| - 1] == '\n'
      invariant start <= b <= |was| && (state.PutUdig? ==> b < |was| && start + colon < b)
      invariant forall i :: start <= i < |was| && (state.PutUdig? ==> i != b) ==> blob[i] == was[i]
      decreases blob.Length - b, if state.PutUdig? then 0 else 1
    {
      ghost var so := Parsed(udigs, algorithms);
      ReadingBounds(was, done, start, b, state, colon, so);
      if state.PutUdig? {
        var udig := blob[start..b];
        assert udig == was[start..b];
        if udig in udigs {
          ReadTwice(was, done, start, b, colon, so);
          return None;
        }
        ReadLine(was, done, start, b, colon, so);
        assert blob[start..start + colon] == was[start..start + colon];
        done := done + [udig];
        udigs, algorithms := udigs + {udig}, algorithms + {blob[start..start + colon]};
        b := b + 1;
        start, state := b, NewUdig;
        continue;
      }
      var c := blob[b];
      if Refuses(state, b - start, c) {
        ReadRefused(was, done, start, b, state, colon, so);
        return None;
      }
      ReadOn(was, done, start, b, state, colon, so);
      match state {
        case NewUdig => state, b := InAlgorithm, b + 1;
        case InAlgorithm =>
          if c == ':' {
            state, colon := InDigest, b - start;
          }
          b := b + 1;
        case InDigest =>
          if c == '\n' {
            blob[b] := 0 as char;
            state := PutUdig;
            ReadingBounds(was, done, start, b, state, colon, so);
          } else {
            b := b + 1;
          }
      }
    }
    AtEnd(was, done, start, b, state, colon, Parsed(udigs, algorithms));
    assert state.NewUdig?;
    r := Some(Parsed(udigs, algorithms));
  }

  lemma {:induction false} LastIsNewline(us: seq<string>, blob: string)
    requires blob != [] && blob[|blob| - 1] != '\n'
    ensures !Prints(us, blob)
  {
  }

  /** The blob ends in a newline, so the parse ends between lines. */
  lemma {:induction false} AtEnd(blob: string, done: seq<string>, start: nat, b: nat, state: State, colon: nat, r: Parsed)
    requires Reading(blob, done, start, b, state, colon, r) && b == |blob| && blob != [] && blob[|blob| - 1] == '\n'
    ensures state.NewUdig? && Prints(done, blob) && ListParsed(done, r)
  {
    var p := blob[start..b];
    NoNewline(blob, start, b);
    assert blob[..start] == blob;
  }

  /** Reading back what was printed gives the same set. */
  method RoundTrip(us: seq<string>) returns (r: Option<Parsed>)
    requires UdigList(us) && us != []
    ensures r.Some? && ListParsed(us, r.value)
  {
    var text := Lines(us);
    FirstLine(us);
    var blob := new char[|text|](i requires 0 <= i < |text| => text[i]);
    assert blob[..] == text;
    assert Prints(us, text);
    r := Blob2UdigSet(blob);
    forall vs | Prints(vs, text) ensures vs == us {
      PrintsOnce(us, vs, text);
    }
  }

  /** The test of the digest's length compares the wrong pointers: a digest of any length passes. */
  lemma {:induction false} AnyDigestLength(digest: string)
    requires AllGraphic(digest)
    ensures Prints(["sha:" + digest], "sha:" + digest + ['\n'])
  {
    var u := "sha:" + digest;
    assert u[3] == ':' && 'a' <= u[0] < 'z';
    assert Lines([u]) == Lines([u][..0]) + u + ['\n'];
  }

  // ---- File names in spool/wrap --------------------------------------------------------------------

  datatype Module = Sha | Bc160 | Btc20

  function Name(m: Module): string {
    match m
    case Sha => "sha"
    case Bc160 => "bc160"
    case Btc20 => "btc20"
  }

  predicate HexDigit(c: char) {
    '0' <= c <= '9' || 'a' <= c <= 'f'
  }

  /** is_digest: the three modules take the same 40 characters. */
  predicate IsDigest(d: string) {
    |d| == 40 && forall i :: 0 <= i < 40 ==> HexDigit(d[i])
  }

  ghost predicate CompiledUdig(u: string) {
    exists m, d :: IsDigest(d) && u == Name(m) + [':'] + d
  }

  /** module_get over the table of compiled-in modules. */
  method ModuleGet(name: string) returns (m: Option<Module>)
    ensures m.Some? ==> Name(m.value) == name
    ensures m.None? ==> forall k :: Name(k) != name
  {
    var modules := [Sha, Bc160, Btc20];
    for i := 0 to 3
      invariant forall j :: 0 <= j < i ==> Name(modules[j]) != name
    {
      if Name(modules[i]) == name {
        return Some(modules[i]);
      }
    }
    assert Name(modules[0]) != name && Name(modules[1]) != name && Name(modules[2]) != name;
    m := None;
  }

  method FirstColon(name: string) returns (at: Option<nat>)
    ensures at.Some? ==> at.value < |name| && name[at.value] == ':' && forall i :: 0 <= i < at.value ==> name[i] != ':'
    ensures at.None? ==> ':' !in name
  {
    for i := 0 to |name|
      invariant ':' !in name[..i]
    {
      if name[i] == ':' {
        return Some(i);
      }
      assert name[..i + 1] == name[..i] + [name[i]];
    }
    assert name[..|name|] == name;
    at := None;
  }

  const SUFFIX := ".brr"

  lemma {:induction false} ColonOfName(m: Module, d: string, at: nat)
    requires at < |Name(m) + [':'] + d + SUFFIX|
    requires var name := Name(m) + [':'] + d + SUFFIX; name[at] == ':' && forall i :: 0 <= i < at ==> name[i] != ':'
    ensures at == |Name(m)|
  {
    var name := Name(m) + [':'] + d + SUFFIX;
    forall i | 0 <= i < |Name(m)| ensures name[i] != ':' {
      assert name[i] == Name(m)[i];
    }
    AlgorithmOf(name, at);
    AlgorithmOf(name, |Name(m)|);
  }

  /** A file name in spool/wrap gives a udig exactly when it is the udig of a compiled-in module with its suffix. */
  method ExtractWrapUdig(name: string) returns (udig: Option<string>)
    ensures udig.Some? ==> CompiledUdig(udig.value) && name == udig.value + SUFFIX
    ensures udig.None? ==> forall u :: CompiledUdig(u) ==> name != u + SUFFIX
  {
    var len := |name|;
    if len < 4 || len >= MAX_UDIG + 4 || name[len - 4..] != SUFFIX {
      forall u | CompiledUdig(u) ensures name != u + SUFFIX {
        assert |u| <= 46;
        assert (u + SUFFIX)[|u|..] == SUFFIX;
      }
      return None;
    }
    var colon := FirstColon(name);
    if colon.None? {
      forall u | CompiledUdig(u) ensures name != u + SUFFIX {
        assert exists i :: 0 <= i < |u + SUFFIX| && (u + SUFFIX)[i] == ':' by {
          var m, d :| IsDigest(d) && u == Name(m) + [':'] + d;
          assert (u + SUFFIX)[|Name(m)|] == ':';
        }
      }
      return None;
    }
    var at := colon.value;
    assert at < len - 4 by {
      assert forall i :: len - 4 <= i < len ==> name[i] == SUFFIX[i - (len - 4)];
    }
    var mp: Option<Module> := None;
    if at <= MAX_ALGORITHM {
      mp := ModuleGet(name[..at]);
    }
    var u := name[..len - 4];
    assert name == u + SUFFIX;
    if mp.Some? && IsDigest(u[at + 1..]) {
      assert u == Name(mp.value) + [':'] + u[at + 1..];
      return Some(u);
    }
    forall v | CompiledUdig(v) ensures name != v + SUFFIX {
      if name == v + SUFFIX {
        NotExtracted(name, v, at);
        assert false;
      }
    }
    udig := None;
  }

  lemma {:induction false} NotExtracted(name: string, u: string, at: nat)
    requires CompiledUdig(u) && name == u + SUFFIX
    requires at < |name| && name[at] == ':' && forall i :: 0 <= i < at ==> name[i] != ':'
    ensures at < |u| && at <= MAX_ALGORITHM && IsDigest(u[at + 1..]) && exists m :: Name(m) == name[..at]
  {
    var m, d :| IsDigest(d) && u == Name(m) + [':'] + d;
    assert name == Name(m) + [':'] + d + SUFFIX;
    ColonOfName(m, d, at);
    assert name[..at] == Name(m);
    assert u[at + 1..] == d;
  }

  /** So every name that wrap prints is one the parser takes. */
  lemma {:induction false} CompiledIsUdig(u: string)
    requires CompiledUdig(u)
    ensures Udig(u)
  {
    var m, d :| IsDigest(d) && u == Name(m) + [':'] + d;
    assert forall i :: 0 <= i < |d| ==> HexDigit(d[i]);
    assert u[|Name(m)|] == ':';
    forall i | 0 <= i < |u| ensures Graphic(u[i]) {
      assert i > |Name(m)| ==> u[i] == d[i - |Name(m)| - 1];
    }
  }
}
