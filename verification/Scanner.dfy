/** The scanner of a client's request line, one byte at a time (bio4d/bio4d.c). */
module Scanner {
  import opened Text
  import opened UdigSet

  type Bytes = seq<char>

  const MAX_VERB := 5
  const MAX_DIGEST := 128
  const NUL := 0 as char

  /** Size of the read buffer. */
  const MSG_SIZE := 255

  predicate Alpha(c: char) {
    'a' <= c <= 'z' || 'A' <= c <= 'Z'
  }

  predicate AlphaNumeric(c: char) {
    Alpha(c) || '0' <= c <= '9'
  }

  // ---- The state machine ---------------------------------------------------------------------------

  datatype State = ScanVerb | ScanAlgorithm | ScanNewLine | ScanDigest

  datatype Scan = Scan(state: State, verb: Bytes, algorithm: Bytes, digest: Bytes)

  datatype Fault =
    | BigVerb | NoAlphaInVerb | BigAlgorithm | DigitFirst | NoAlphaNumeric | NoNewLine | BigDigest | NoPrintInDigest

  datatype Turn = More(scan: Scan) | Go(verb: Bytes, algorithm: Bytes, digest: Bytes) | Die(fault: Fault)

  const Start := Scan(ScanVerb, [], [], [])

  function Read(s: Scan, c: char): Turn {
    match s.state
    case ScanVerb =>
      if c == ' ' then More(s.(state := ScanAlgorithm))
      else if c == '\n' then Go(s.verb, s.algorithm, s.digest)
      else if c == '\r' then More(s.(state := ScanNewLine))
      else if !Alpha(c) then Die(NoAlphaInVerb)
      else if |s.verb| == MAX_VERB then Die(BigVerb)
      else More(s.(verb := s.verb + [c]))
    case ScanAlgorithm =>
      if c == ':' then More(s.(state := ScanDigest))
      else if c == '\n' then Go(s.verb, s.algorithm, s.digest)
      else if c == '\r' then More(s.(state := ScanNewLine))
      else if !AlphaNumeric(c) then Die(NoAlphaNumeric)
      else if |s.algorithm| == MAX_ALGORITHM then Die(BigAlgorithm)
      else if s.algorithm == [] && !Alpha(c) then Die(DigitFirst)
      else More(s.(algorithm := s.algorithm + [c]))
    case ScanNewLine =>
      if c == '\n' then Go(s.verb, s.algorithm, s.digest) else Die(NoNewLine)
    case ScanDigest =>
      if c == '\n' then Go(s.verb, s.algorithm, s.digest)
      else if c == '\r' then More(s.(state := ScanNewLine))
      else if !Graphic(c) then Die(NoPrintInDigest)
      else if |s.digest| == MAX_DIGEST then Die(BigDigest)
      else More(s.(digest := s.digest + [c]))
  }

  /** `rest` is what follows the newline. */
  datatype Verdict =
    | Request(verb: Bytes, algorithm: Bytes, digest: Bytes, rest: Bytes)
    | Rejected(fault: Fault)
    | Incomplete(scan: Scan)

  /** The verdict on a whole stream. */
  function Judge(s: Scan, stream: Bytes): Verdict
    decreases |stream|
  {
    if stream == [] then Incomplete(s)
    else
      match Read(s, stream[0])
      case More(t) => Judge(t, stream[1..])
      case Go(v, a, d) => Request(v, a, d, stream[1..])
      case Die(f) => Rejected(f)
  }

  // ---- The grammar ---------------------------------------------------------------------------------

  /** The three shapes of a line: a verb, a verb and an algorithm, a verb and a udig. */
  datatype Shape = Bare | Named | Full

  function Body(k: Shape, v: Bytes, a: Bytes, d: Bytes): Bytes {
    match k
    case Bare => v
    case Named => v + [' '] + a
    case Full => v + [' '] + a + [':'] + d
  }

  function Line(k: Shape, cr: bool, v: Bytes, a: Bytes, d: Bytes): Bytes {
    Body(k, v, a, d) + (if cr then ['\r'] else []) + ['\n']
  }

  ghost predicate VerbOk(v: Bytes) {
    |v| <= 5 && forall i :: 0 <= i < |v| ==> 'a' <= v[i] <= 'z' || 'A' <= v[i] <= 'Z'
  }

  ghost predicate AlgorithmOk(a: Bytes) {
    && |a| <= 8 && (a != [] ==> !('0' <= a[0] <= '9'))
    && forall i :: 0 <= i < |a| ==> 'a' <= a[i] <= 'z' || 'A' <= a[i] <= 'Z' || '0' <= a[i] <= '9'
  }

  ghost predicate DigestOk(d: Bytes) {
    |d| <= 128 && forall i :: 0 <= i < |d| ==> '!' <= d[i] <= '~'
  }

  ghost predicate TokensOk(k: Shape, v: Bytes, a: Bytes, d: Bytes) {
    && VerbOk(v) && AlgorithmOk(a) && DigestOk(d)
    && (k.Bare? ==> a == [] && d == []) && (k.Named? ==> d == [])
  }

  /** The text `p` brings the scanner to the state `s`. */
  ghost predicate Reads(s: Scan, p: Bytes) {
    && (s.state.ScanVerb? ==> TokensOk(Bare, s.verb, s.algorithm, s.digest) && p == Body(Bare, s.verb, s.algorithm, s.digest))
    && (s.state.ScanAlgorithm? ==> TokensOk(Named, s.verb, s.algorithm, s.digest) && p == Body(Named, s.verb, s.algorithm, s.digest))
    && (s.state.ScanDigest? ==> TokensOk(Full, s.verb, s.algorithm, s.digest) && p == Body(Full, s.verb, s.algorithm, s.digest))
    && (s.state.ScanNewLine? ==> exists k :: TokensOk(k, s.verb, s.algorithm, s.digest) && p == Body(k, s.verb, s.algorithm, s.digest) + ['\r'])
  }

  ghost predicate IsLine(p: Bytes, v: Bytes, a: Bytes, d: Bytes) {
    exists k, cr :: TokensOk(k, v, a, d) && p == Line(k, cr, v, a, d)
  }

  lemma {:induction false} ReadsNext(s: Scan, p: Bytes, c: char)
    requires Reads(s, p)
    ensures Read(s, c).More? ==> Reads(Read(s, c).scan, p + [c])
  {
    match s.state
    case ScanVerb =>
      if c == ' ' {
        assert p + [c] == Body(Named, s.verb, [], []);
      } else if c == '\r' {
        assert p + [c] == Body(Bare, s.verb, [], []) + ['\r'];
      }
    case ScanAlgorithm =>
      if c == ':' {
        assert p + [c] == Body(Full, s.verb, s.algorithm, []);
      } else if c == '\r' {
        assert p + [c] == Body(Named, s.verb, s.algorithm, []) + ['\r'];
      } else {
        assert p + [c] == Body(Named, s.verb, s.algorithm + [c], []);
      }
    case ScanNewLine =>
    case ScanDigest =>
      if c == '\r' {
        assert p + [c] == Body(Full, s.verb, s.algorithm, s.digest) + ['\r'];
      } else {
        assert p + [c] == Body(Full, s.verb, s.algorithm, s.digest + [c]);
      }
  }

  lemma {:induction false} GoesOnLine(s: Scan, p: Bytes, c: char)
    requires Reads(s, p) && Read(s, c).Go?
    ensures c == '\n' && Read(s, c) == Go(s.verb, s.algorithm, s.digest)
    ensures IsLine(p + [c], s.verb, s.algorithm, s.digest)
  {
    match s.state
    case ScanVerb => assert p + [c] == Line(Bare, false, s.verb, s.algorithm, s.digest);
    case ScanAlgorithm => assert p + [c] == Line(Named, false, s.verb, s.algorithm, s.digest);
    case ScanDigest => assert p + [c] == Line(Full, false, s.verb, s.algorithm, s.digest);
    case ScanNewLine =>
      var k :| TokensOk(k, s.verb, s.algorithm, s.digest) && p == Body(k, s.verb, s.algorithm, s.digest) + ['\r'];
      assert p + [c] == Line(k, true, s.verb, s.algorithm, s.digest);
  }

  lemma {:induction false} JudgedIsLine(s: Scan, p: Bytes, stream: Bytes)
    requires Reads(s, p) && Judge(s, stream).Request?
    ensures var r := Judge(s, stream);
      exists l :: IsLine(l, r.verb, r.algorithm, r.digest) && p + stream == l + r.rest
    decreases |stream|
  {
    var c, rest := stream[0], stream[1..];
    assert p + stream == (p + [c]) + rest;
    if Read(s, c).More? {
      ReadsNext(s, p, c);
      JudgedIsLine(Read(s, c).scan, p + [c], rest);
    } else {
      GoesOnLine(s, p, c);
    }
  }

  lemma {:induction false} ScansVerb(v: Bytes, w: Bytes, rest: Bytes)
    requires VerbOk(v + w)
    ensures Judge(Scan(ScanVerb, v, [], []), w + rest) == Judge(Scan(ScanVerb, v + w, [], []), rest)
    decreases |w|
  {
    if w == [] {
      assert v + w == v && w + rest == rest;
    } else {
      assert (v + w)[|v|] == w[0];
      assert (v + [w[0]]) + w[1..] == v + w && (w + rest)[1..] == w[1..] + rest;
      ScansVerb(v + [w[0]], w[1..], rest);
    }
  }

  lemma {:induction false} ScansAlgorithm(v: Bytes, a: Bytes, b: Bytes, rest: Bytes)
    requires AlgorithmOk(a + b)
    ensures Judge(Scan(ScanAlgorithm, v, a, []), b + rest) == Judge(Scan(ScanAlgorithm, v, a + b, []), rest)
    decreases |b|
  {
    if b == [] {
      assert a + b == a && b + rest == rest;
    } else {
      assert (a + b)[|a|] == b[0];
      assert (a + [b[0]]) + b[1..] == a + b && (b + rest)[1..] == b[1..] + rest;
      ScansAlgorithm(v, a + [b[0]], b[1..], rest);
    }
  }

  lemma {:induction false} ScansDigest(v: Bytes, a: Bytes, d: Bytes, e: Bytes, rest: Bytes)
    requires DigestOk(d + e)
    ensures Judge(Scan(ScanDigest, v, a, d), e + rest) == Judge(Scan(ScanDigest, v, a, d + e), rest)
    decreases |e|
  {
    if e == [] {
      assert d + e == d && e + rest == rest;
    } else {
      assert (d + e)[|d|] == e[0];
      assert (d + [e[0]]) + e[1..] == d + e && (e + rest)[1..] == e[1..] + rest;
      ScansDigest(v, a, d + [e[0]], e[1..], rest);
    }
  }

  function End(cr: bool, rest: Bytes): Bytes {
    (if cr then ['\r'] else []) + ['\n'] + rest
  }

  lemma {:induction false} ScansEnd(s: Scan, cr: bool, rest: Bytes)
    requires !s.state.ScanNewLine?
    ensures Judge(s, End(cr, rest)) == Request(s.verb, s.algorithm, s.digest, rest)
  {
    var end := End(cr, rest);
    if cr {
      assert end[1..] == ['\n'] + rest;
      assert (['\n'] + rest)[1..] == rest;
    } else {
      assert end[1..] == rest;
    }
  }

  lemma {:induction false} BareIsJudged(cr: bool, v: Bytes, rest: Bytes)
    requires VerbOk(v)
    ensures Judge(Start, v + End(cr, rest)) == Request(v, [], [], rest)
  {
    assert [] + v == v;
    ScansVerb([], v, End(cr, rest));
    ScansEnd(Scan(ScanVerb, v, [], []), cr, rest);
  }

  /** After the verb and the space. */
  lemma {:induction false} VerbIsRead(v: Bytes, tail: Bytes)
    requires VerbOk(v)
    ensures Judge(Start, v + ([' '] + tail)) == Judge(Scan(ScanAlgorithm, v, [], []), tail)
  {
    assert [] + v == v;
    ScansVerb([], v, [' '] + tail);
    assert ([' '] + tail)[1..] == tail;
  }

  lemma {:induction false} NamedIsJudged(cr: bool, v: Bytes, a: Bytes, rest: Bytes)
    requires AlgorithmOk(a)
    ensures Judge(Scan(ScanAlgorithm, v, [], []), a + End(cr, rest)) == Request(v, a, [], rest)
  {
    assert [] + a == a;
    ScansAlgorithm(v, [], a, End(cr, rest));
    ScansEnd(Scan(ScanAlgorithm, v, a, []), cr, rest);
  }

  lemma {:induction false} FullIsJudged(cr: bool, v: Bytes, a: Bytes, d: Bytes, rest: Bytes)
    requires AlgorithmOk(a) && DigestOk(d)
    ensures Judge(Scan(ScanAlgorithm, v, [], []), a + ([':'] + (d + End(cr, rest)))) == Request(v, a, d, rest)
  {
    assert [] + a == a && [] + d == d;
    var tail := [':'] + (d + End(cr, rest));
    ScansAlgorithm(v, [], a, tail);
    assert tail[1..] == d + End(cr, rest);
    ScansDigest(v, a, [], d, End(cr, rest));
    ScansEnd(Scan(ScanDigest, v, a, d), cr, rest);
  }

  lemma {:induction false} LineParts(k: Shape, cr: bool, v: Bytes, a: Bytes, d: Bytes, rest: Bytes)
    ensures Line(k, cr, v, a, d) + rest ==
      match k
      case Bare => v + End(cr, rest)
      case Named => v + ([' '] + (a + End(cr, rest)))
      case Full => v + ([' '] + (a + ([':'] + (d + End(cr, rest)))))
  {
  }

  lemma {:induction false} LineIsJudged(k: Shape, cr: bool, v: Bytes, a: Bytes, d: Bytes, rest: Bytes)
    requires TokensOk(k, v, a, d)
    ensures Judge(Start, Line(k, cr, v, a, d) + rest) == Request(v, a, d, rest)
  {
    LineParts(k, cr, v, a, d, rest);
    match k
    case Bare =>
      BareIsJudged(cr, v, rest);
    case Named =>
      VerbIsRead(v, a + End(cr, rest));
      NamedIsJudged(cr, v, a, rest);
    case Full =>
      VerbIsRead(v, a + ([':'] + (d + End(cr, rest))));
      FullIsJudged(cr, v, a, d, rest);
  }

  /** A stream is a request exactly when it begins with a line of the grammar; the line fixes the tokens and the rest. */
  lemma {:induction false} RequestExactly(stream: Bytes, v: Bytes, a: Bytes, d: Bytes, rest: Bytes)
    ensures Judge(Start, stream) == Request(v, a, d, rest) <==> exists l :: IsLine(l, v, a, d) && stream == l + rest
  {
    if Judge(Start, stream) == Request(v, a, d, rest) {
      JudgedIsLine(Start, [], stream);
      assert [] + stream == stream;
    }
    if l :| IsLine(l, v, a, d) && stream == l + rest {
      var k, cr :| TokensOk(k, v, a, d) && l == Line(k, cr, v, a, d);
      LineIsJudged(k, cr, v, a, d, rest);
    }
  }

  /** Every verb of the protocol with the udig of every compiled-in module is a request, and its tokens are the three texts. */
  lemma {:induction false} UdigsAreServed(verb: Bytes, m: Module, d: Bytes, rest: Bytes)
    requires verb in {"get", "put", "give", "take", "eat", "wrap", "roll", "cat"} && IsDigest(d)
    ensures Judge(Start, verb + [' '] + Name(m) + [':'] + d + ['\n'] + rest) == Request(verb, Name(m), d, rest)
  {
    NameOk(m);
    assert forall i :: 0 <= i < |d| ==> HexDigit(d[i]) && Graphic(d[i]);
    var line := verb + [' '] + Name(m) + [':'] + d + ['\n'];
    assert line == Line(Full, false, verb, Name(m), d);
    LineIsJudged(Full, false, verb, Name(m), d, rest);
    assert line + rest == verb + [' '] + Name(m) + [':'] + d + ['\n'] + rest;
  }

  lemma {:induction false} NameOk(m: Module)
    ensures AlgorithmOk(Name(m))
  {
  }

  // ---- The reader with its buffers -----------------------------------------------------------------

  /** A token buffer and its next free place. */
  class Token {
    const buf: array<char>
    var next: nat
    ghost var text: Bytes

    /** The text so far; there is always room for the null after it. */
    ghost predicate Valid() reads this, buf {
      && |text| < buf.Length && next == |text| && buf[..next] == text
      && forall i :: 0 <= i < |text| ==> text[i] != NUL
    }

    ghost predicate Ended() reads this, buf {
      && |text| < buf.Length && buf[..|text|] == text && buf[|text|] == NUL
      && forall i :: 0 <= i < |text| ==> text[i] != NUL
    }

    constructor (size: nat)
      ensures Valid() && Ended() && text == [] && fresh(buf) && buf.Length == size + 1
    {
      buf := new char[size + 1](_ => NUL);
      next, text := 0, [];
    }

    method Put(c: char)
      requires Valid() && |text| + 1 < buf.Length && c != NUL
      modifies this, buf
      ensures Valid() && text == old(text) + [c]
    {
      buf[next] := c;
      next, text := next + 1, text + [c];
    }

    method End()
      requires Valid()
      modifies buf
      ensures Valid() && Ended()
    {
      buf[next] := NUL;
    }

    /** The buffer as a C string. */
    method CString() returns (s: Bytes)
      requires Ended()
      ensures s == text
    {
      assert forall i :: 0 <= i < |text| ==> buf[i] == buf[..|text|][i];
      var n := 0;
      while buf[n] != NUL
        invariant n <= |text|
        decreases |text| - n
      {
        n := n + 1;
      }
      s := buf[..n];
    }
  }

  /** The local variables of request(). */
  class Reader {
    const verb: Token
    const algorithm: Token
    const digest: Token
    var state: State

    ghost predicate Apart() reads this {
      && verb != algorithm && verb != digest && algorithm != digest
      && verb.buf != algorithm.buf && verb.buf != digest.buf && algorithm.buf != digest.buf
      && verb.buf.Length == MAX_VERB + 1 && algorithm.buf.Length == MAX_ALGORITHM + 1
      && digest.buf.Length == MAX_DIGEST + 1
    }

    ghost predicate Valid()
      reads this, verb, algorithm, digest, verb.buf, algorithm.buf, digest.buf
    {
      && Apart()
      && (if state.ScanVerb? then verb.Valid() else verb.Ended())
      && (if state.ScanAlgorithm? then algorithm.Valid() else algorithm.Ended())
      && (state.ScanVerb? ==> algorithm.Valid())
      && digest.Valid()
    }

    ghost function View(): Scan reads this, verb, algorithm, digest {
      Scan(state, verb.text, algorithm.text, digest.text)
    }

    constructor ()
      ensures Valid() && View() == Start
      ensures fresh(verb) && fresh(algorithm) && fresh(digest) && fresh(verb.buf) && fresh(algorithm.buf) && fresh(digest.buf)
    {
      verb := new Token(MAX_VERB);
      algorithm := new Token(MAX_ALGORITHM);
      digest := new Token(MAX_DIGEST);
      state := ScanVerb;
    }

    /** The outcome of a character is the turn of the state machine. */
    ghost predicate Agrees(o: Outcome, t: Turn)
      reads this, verb, algorithm, digest, verb.buf, algorithm.buf, digest.buf
    {
      match t
      case More(scan) => o == Continue && Valid() && View() == scan
      case Go(v, a, d) => o == Ready(v, a, d)
      case Die(f) => o == Dead(f)
    }

    /** STATE_go: end the digest, and read the three buffers as strings. */
    method Finish() returns (o: Outcome)
      requires Apart() && verb.Ended() && algorithm.Ended() && digest.Valid()
      modifies digest.buf
      ensures o == Ready(verb.text, algorithm.text, digest.text)
    {
      digest.End();
      var v := verb.CString();
      var a := algorithm.CString();
      var d := digest.CString();
      o := Ready(v, a, d);
    }

    method FeedVerb(c: char) returns (o: Outcome)
      requires Valid() && state.ScanVerb?
      modifies this`state, verb, verb.buf, digest.buf
      ensures Agrees(o, Read(old(View()), c))
    {
      o := Continue;
      if c == ' ' {
        verb.End();
        state := ScanAlgorithm;
      } else if c == '\n' {
        verb.End();
        o := Finish();
      } else if c == '\r' {
        verb.End();
        state := ScanNewLine;
      } else if !Alpha(c) {
        o := Dead(NoAlphaInVerb);
      } else if verb.next == MAX_VERB {
        o := Dead(BigVerb);
      } else {
        verb.Put(c);
      }
    }

    method FeedAlgorithm(c: char) returns (o: Outcome)
      requires Valid() && state.ScanAlgorithm?
      modifies this`state, algorithm, algorithm.buf, digest.buf
      ensures Agrees(o, Read(old(View()), c))
    {
      o := Continue;
      if c == ':' {
        algorithm.End();
        state := ScanDigest;
      } else if c == '\n' {
        algorithm.End();
        o := Finish();
      } else if c == '\r' {
        algorithm.End();
        state := ScanNewLine;
      } else if !AlphaNumeric(c) {
        o := Dead(NoAlphaNumeric);
      } else if algorithm.next == MAX_ALGORITHM {
        o := Dead(BigAlgorithm);
      } else if algorithm.next == 0 && !Alpha(c) {
        o := Dead(DigitFirst);
      } else {
        algorithm.Put(c);
      }
    }

    method FeedDigest(c: char) returns (o: Outcome)
      requires Valid() && state.ScanDigest?
      modifies this`state, digest, digest.buf
      ensures Agrees(o, Read(old(View()), c))
    {
      o := Continue;
      if c == '\n' {
        o := Finish();
      } else if c == '\r' {
        state := ScanNewLine;
      } else if !Graphic(c) {
        o := Dead(NoPrintInDigest);
      } else if digest.next == MAX_DIGEST {
        o := Dead(BigDigest);
      } else {
        digest.Put(c);
      }
    }

    method Feed(c: char) returns (o: Outcome)
      requires Valid()
      modifies this`state, verb, algorithm, digest, verb.buf, algorithm.buf, digest.buf
      ensures Agrees(o, Read(old(View()), c))
    {
      match state {
        case ScanVerb => o := FeedVerb(c);
        case ScanAlgorithm => o := FeedAlgorithm(c);
        case ScanDigest => o := FeedDigest(c);
        case ScanNewLine =>
          if c != '\n' {
            return Dead(NoNewLine);
          }
          o := Finish();
      }
    }

    /** The inner loop, over one chunk. `used` is how many bytes of the chunk were consumed. */
    method Chew(chunk: Bytes) returns (o: Outcome, used: nat)
      requires Valid()
      modifies this`state, verb, algorithm, digest, verb.buf, algorithm.buf, digest.buf
      ensures used <= |chunk| && (!o.Continue? ==> used > 0)
      ensures o.Continue? ==> Valid() && forall more :: Judge(old(View()), chunk + more) == Judge(View(), more)
      ensures o.Ready? ==> forall more ::
        Judge(old(View()), chunk + more) == Request(o.verb, o.algorithm, o.digest, chunk[used..] + more)
      ensures o.Dead? ==> forall more :: Judge(old(View()), chunk + more) == Rejected(o.fault)
    {
      o, used := Continue, 0;
      assert chunk[0..] == chunk;
      while used < |chunk|
        invariant used <= |chunk| && Valid() && o == Continue
        invariant forall more {:trigger Judge(View(), chunk[used..] + more)} {:trigger chunk + more} ::
          Judge(old(View()), chunk + more) == Judge(View(), chunk[used..] + more)
      {
        ghost var was := View();
        var c := chunk[used];
        o := Feed(c);
        ghost var left := chunk[used..];
        used := used + 1;
        forall more ensures (left + more)[0] == c && (left + more)[1..] == chunk[used..] + more {
        }
        forall more
          ensures Judge(old(View()), chunk + more) ==
            (match Read(was, c)
             case More(t) => Judge(t, chunk[used..] + more)
             case Go(v, a, d) => Request(v, a, d, chunk[used..] + more)
             case Die(f) => Rejected(f))
        {
          assert Judge(old(View()), chunk + more) == Judge(was, left + more);
        }
        if !o.Continue? {
          return;
        }
      }
      assert forall more: Bytes :: chunk[|chunk|..] + more == more;
    }
  }

  /** What a character leads to in the running program. */
  datatype Outcome = Continue | Ready(verb: Bytes, algorithm: Bytes, digest: Bytes) | Dead(fault: Fault)

  function Flatten(chunks: seq<Bytes>): Bytes {
    if chunks == [] then [] else chunks[0] + Flatten(chunks[1..])
  }

  /**
    request(): the verdict is that on the whole stream, however the reads cut it; on a request, the rest of
    the chunk with the newline and the chunks not yet read are together the stream after the newline.
   */
  method ScanRequest(chunks: seq<Bytes>) returns (o: Outcome, scanBuf: Bytes, read: nat)
    requires forall i :: 0 <= i < |chunks| ==> 0 < |chunks[i]| <= MSG_SIZE
    ensures read <= |chunks| && |scanBuf| < MSG_SIZE
    ensures o.Ready? ==>
      Judge(Start, Flatten(chunks)) == Request(o.verb, o.algorithm, o.digest, scanBuf + Flatten(chunks[read..]))
    ensures o.Dead? ==> Judge(Start, Flatten(chunks)) == Rejected(o.fault)
    ensures o.Continue? ==> Judge(Start, Flatten(chunks)).Incomplete?
  {
    var reader := new Reader();
    o, scanBuf, read := Continue, [], 0;
    assert chunks[0..] == chunks;
    while read < |chunks|
      invariant read <= |chunks| && reader.Valid() && o.Continue?
      invariant fresh(reader) && fresh(reader.verb) && fresh(reader.algorithm) && fresh(reader.digest)
      invariant fresh(reader.verb.buf) && fresh(reader.algorithm.buf) && fresh(reader.digest.buf)
      invariant Judge(Start, Flatten(chunks)) == Judge(reader.View(), Flatten(chunks[read..]))
    {
      ghost var more := Flatten(chunks[read + 1..]);
      assert chunks[read..][1..] == chunks[read + 1..];
      assert Flatten(chunks[read..]) == chunks[read] + more;
      var chunk := chunks[read];
      var used;
      o, used := reader.Chew(chunk);
      read := read + 1;
      if !o.Continue? {
        scanBuf := chunk[used..];
        return;
      }
    }
  }
}
