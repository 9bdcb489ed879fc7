/** A blob request record read back, field by field (bio4d/brr.c). */
module BrrRead {
  import opened Text
  import opened Fields
  import opened UdigSet
  import opened BrrRecord

  /** What a calendar gives for the years of four digits, and what is left of a difference of times. */
  predicate Fits(r: Request) {
    && r.start.year < 10000 && 1 <= r.start.month <= 12 && 1 <= r.start.day <= 31
    && r.start.hour < 24 && r.start.minute < 60 && r.start.second <= 60 && r.start.nano < 1_000_000_000
    && r.nanoseconds < 1_000_000_000
  }

  // ---- A reader ------------------------------------------------------------------------------------

  /** YYYY-MM-DDThh:mm:ss.nnnnnnnnn+00:00 */
  function ReadTime(s: string): Option<Time> {
    if |s| == 35 && s[4] == '-' && s[7] == '-' && s[10] == 'T' && s[13] == ':' && s[16] == ':' && s[19] == '.' && s[29..] == "+00:00"
    then Some(Time(ReadDecimal(s[..4]), ReadDecimal(s[5..7]), ReadDecimal(s[8..10]), ReadDecimal(s[11..13]),
                   ReadDecimal(s[14..16]), ReadDecimal(s[17..19]), ReadDecimal(s[20..29])))
    else None
  }

  /** Four octets with dots between them, the high one first. */
  function ReadAddress(s: string): nat {
    var o := Split(s, '.');
    if |o| != 4 then 0
    else ReadDecimal(o[0]) * 0x100_0000 + ReadDecimal(o[1]) * 0x1_0000 + ReadDecimal(o[2]) * 0x100 + ReadDecimal(o[3])
  }

  datatype End = End(address: nat, port: nat)

  function ReadEnd(s: string): Option<End> {
    var p := Split(s, ':');
    if |p| == 2 then Some(End(ReadAddress(p[0]), ReadDecimal(p[1]))) else None
  }

  /** The server's end and then the client's. */
  function ReadTransport(s: string): Option<(End, End)> {
    if !("tcp4~" <= s) then None
    else
      var ends := Split(s[5..], ';');
      if |ends| != 2 then None
      else
        var bind, remote := ReadEnd(ends[0]), ReadEnd(ends[1]);
        if bind.Some? && remote.Some? then Some((bind.value, remote.value)) else None
  }

  /** Seven fields with tabs between them, and a newline. */
  function ReadRecord(line: string): Option<Request> {
    if line == [] || line[|line| - 1] != '\n' || '\n' in line[..|line| - 1] then None
    else
      var f := Split(line[..|line| - 1], '\t');
      if |f| != 7 then None
      else
        var start, transport, duration := ReadTime(f[0]), ReadTransport(f[1]), Split(f[6], '.');
        if start.None? || transport.None? || |duration| != 2 then None
        else
          Some(Request(start.value, transport.value.1.address, transport.value.1.port,
                       transport.value.0.address, transport.value.0.port, f[2], f[3], f[4],
                       ReadDecimal(f[5]), ReadDecimal(duration[0]), ReadDecimal(duration[1])))
  }

  // ---- The fields ----------------------------------------------------------------------------------

  lemma {:induction false} Powers()
    ensures Power10(2) == 100 && Power10(4) == 10000 && Power10(9) == 1_000_000_000
  {
    assert Power10(1) == 10 && Power10(2) == 100 && Power10(3) == 1000 && Power10(4) == 10000;
    assert Power10(5) == 100000 && Power10(6) == 1000000 && Power10(7) == 10000000 && Power10(8) == 100000000;
  }

  lemma {:induction false} TimeReads(t: Time)
    requires t.year < 10000 && t.month < 100 && t.day < 100 && t.hour < 100 && t.minute < 100 && t.second < 100
    requires t.nano < 1_000_000_000
    ensures ReadTime(StartTime(t)) == Some(t)
  {
    hide Padded, ReadDecimal, Power10;
    Powers();
    PaddedReads(t.year, 4);
    PaddedReads(t.month, 2);
    PaddedReads(t.day, 2);
    PaddedReads(t.hour, 2);
    PaddedReads(t.minute, 2);
    PaddedReads(t.second, 2);
    PaddedReads(t.nano, 9);
    var s := StartTime(t);
    assert s[..4] == Padded(t.year, 4) && s[5..7] == Padded(t.month, 2) && s[8..10] == Padded(t.day, 2);
    assert s[11..13] == Padded(t.hour, 2) && s[14..16] == Padded(t.minute, 2) && s[17..19] == Padded(t.second, 2);
    assert s[20..29] == Padded(t.nano, 9) && s[29..] == "+00:00";
  }

  lemma {:induction false} DigitsLack(s: string, c: char)
    requires Digits(s) && !('0' <= c <= '9')
    ensures c !in s
  {
  }

  lemma {:induction false} OctetsRead(addr: nat)
    requires addr < 0x1_0000_0000
    ensures ReadAddress(Dotted(Octets(addr))) == addr
    ensures forall c :: c in Dotted(Octets(addr)) ==> c == '.' || '0' <= c <= '9'
  {
    hide Split, ReadDecimal, Decimal, Dotted;
    var o := Octets(addr);
    OctetsText(addr);
    OctetReads(o[0]);
    OctetReads(o[1]);
    OctetReads(o[2]);
    OctetReads(o[3]);
    SplitFour(Decimal(o[0]), Decimal(o[1]), Decimal(o[2]), Decimal(o[3]));
  }

  lemma {:induction false} SplitFour(a: string, b: string, c: string, d: string)
    requires '.' !in a && '.' !in b && '.' !in c && '.' !in d
    ensures Split(a + ['.'] + b + ['.'] + c + ['.'] + d, '.') == [a, b, c, d]
  {
    hide Split;
    var t3 := c + ['.'] + d;
    var t2 := b + ['.'] + t3;
    SplitOne(d, '.');
    SplitFirst(c, '.', d);
    SplitFirst(b, '.', t3);
    SplitFirst(a, '.', t2);
    assert a + ['.'] + b + ['.'] + c + ['.'] + d == a + ['.'] + t2;
  }

  lemma {:induction false} OctetReads(n: Octet)
    ensures ReadDecimal(Decimal(n)) == n && Digits(Decimal(n)) && '.' !in Decimal(n)
  {
    DecimalReads(n);
  }

  lemma {:induction false} OctetsText(addr: nat)
    requires addr < 0x1_0000_0000
    ensures var o := Octets(addr);
      Dotted(o) == Decimal(o[0]) + ['.'] + Decimal(o[1]) + ['.'] + Decimal(o[2]) + ['.'] + Decimal(o[3])
  {
    hide Decimal;
    var o := Octets(addr);
    assert o[1..][1..] == o[2..] && o[2..][1..] == o[3..];
    assert Dotted(o[3..]) == Decimal(o[3]);
    assert Dotted(o[2..]) == Decimal(o[2]) + ['.'] + Dotted(o[3..]);
    assert Dotted(o[1..]) == Decimal(o[1]) + ['.'] + Dotted(o[2..]);
  }

  /** An end of the transport holds neither a semicolon nor a blank. */
  lemma {:induction false} EndReads(addr: nat, port: nat)
    requires addr < 0x1_0000_0000
    ensures var s := Dotted(Octets(addr)) + [':'] + Decimal(port);
      ReadEnd(s) == Some(End(addr, port)) && forall c :: c in s ==> c == '.' || c == ':' || '0' <= c <= '9'
  {
    hide Split, ReadDecimal, Decimal, Dotted, Octets, ReadAddress;
    OctetsRead(addr);
    DecimalReads(port);
    SplitFirst(Dotted(Octets(addr)), ':', Decimal(port));
    DigitsLack(Decimal(port), ':');
    SplitOne(Decimal(port), ':');
  }

  lemma {:induction false} TransportReads(r: Request)
    requires FromServer(r)
    ensures ReadTransport(Transport(r)) == Some((End(r.bind, r.bindPort), End(r.remote, r.remotePort)))
    ensures '\t' !in Transport(r) && '\n' !in Transport(r)
  {
    hide Split, ReadEnd, Dotted, Octets, Decimal;
    var bind, remote := Dotted(Octets(r.bind)) + [':'] + Decimal(r.bindPort), Dotted(Octets(r.remote)) + [':'] + Decimal(r.remotePort);
    EndReads(r.bind, r.bindPort);
    EndReads(r.remote, r.remotePort);
    SplitFirst(bind, ';', remote);
    SplitOne(remote, ';');
    var s := Transport(r);
    assert s == "tcp4~" + (bind + [';'] + remote);
    assert s[5..] == bind + [';'] + remote;
  }

  /** Neither a tab nor a newline. */
  predicate Plain(s: string) {
    '\t' !in s && '\n' !in s
  }

  lemma {:induction false} UdigIsPlain(u: string)
    requires CompiledUdig(u) || exists m :: u == Name(m)
    ensures Plain(u)
  {
    if CompiledUdig(u) {
      hide CompiledUdig, HasAlgorithm;
      CompiledIsUdig(u);
      assert forall i :: 0 <= i < |u| ==> Graphic(u[i]);
    }
  }

  lemma {:induction false} NamesArePlain(r: Request)
    requires FromServer(r)
    ensures Plain(r.verb) && Plain(r.udig) && Plain(r.chat)
  {
    hide CompiledUdig;
    UdigIsPlain(r.udig);
  }

  lemma {:induction false} TimeIsPlain(t: Time)
    requires t.year < 10000 && t.month < 100 && t.day < 100 && t.hour < 100 && t.minute < 100 && t.second < 100
    requires t.nano < 1_000_000_000
    ensures Plain(StartTime(t))
  {
    hide Padded, ReadDecimal, Power10;
    Powers();
    PaddedReads(t.year, 4);
    PaddedReads(t.month, 2);
    PaddedReads(t.day, 2);
    PaddedReads(t.hour, 2);
    PaddedReads(t.minute, 2);
    PaddedReads(t.second, 2);
    PaddedReads(t.nano, 9);
  }

  function Duration(r: Request): string {
    Decimal(r.seconds) + ['.'] + Padded(r.nanoseconds, 9)
  }

  lemma {:induction false} DurationReads(r: Request)
    requires r.nanoseconds < 1_000_000_000
    ensures Split(Duration(r), '.') == [Decimal(r.seconds), Padded(r.nanoseconds, 9)]
    ensures ReadDecimal(Decimal(r.seconds)) == r.seconds && ReadDecimal(Padded(r.nanoseconds, 9)) == r.nanoseconds
    ensures Plain(Duration(r))
  {
    hide Split, Padded, Decimal, ReadDecimal, Power10;
    Powers();
    DecimalReads(r.seconds);
    PaddedReads(r.nanoseconds, 9);
    SplitFirst(Decimal(r.seconds), '.', Padded(r.nanoseconds, 9));
    SplitOne(Padded(r.nanoseconds, 9), '.');
  }

  /** Seven plain texts with tabs between them split into the seven. */
  lemma {:induction false} SplitSeven(a: string, b: string, c: string, d: string, e: string, f: string, g: string)
    requires Plain(a) && Plain(b) && Plain(c) && Plain(d) && Plain(e) && Plain(f) && Plain(g)
    ensures var s := a + ['\t'] + b + ['\t'] + c + ['\t'] + d + ['\t'] + e + ['\t'] + f + ['\t'] + g;
      Split(s, '\t') == [a, b, c, d, e, f, g] && '\n' !in s
  {
    hide Split;
    var t6 := f + ['\t'] + g;
    var t5 := e + ['\t'] + t6;
    var t4 := d + ['\t'] + t5;
    var t3 := c + ['\t'] + t4;
    var t2 := b + ['\t'] + t3;
    SplitOne(g, '\t');
    SplitFirst(f, '\t', g);
    SplitFirst(e, '\t', t6);
    SplitFirst(d, '\t', t5);
    SplitFirst(c, '\t', t4);
    SplitFirst(b, '\t', t3);
    SplitFirst(a, '\t', t2);
    assert a + ['\t'] + b + ['\t'] + c + ['\t'] + d + ['\t'] + e + ['\t'] + f + ['\t'] + g == a + ['\t'] + t2;
  }

  /** The fields of a record, in their order; the newline is only at its end. */
  lemma {:induction false} RecordFields(r: Request)
    requires FromServer(r) && Fits(r)
    ensures var line := Record(r);
      && line != [] && line[|line| - 1] == '\n' && '\n' !in line[..|line| - 1]
      && Split(line[..|line| - 1], '\t')
          == [StartTime(r.start), Transport(r), r.verb, r.udig, r.chat, Decimal(r.blobSize), Duration(r)]
  {
    hide StartTime, Transport, Decimal, Duration, Split;
    TimeIsPlain(r.start);
    TransportReads(r);
    NamesArePlain(r);
    DecimalReads(r.blobSize);
    DurationReads(r);
    SplitSeven(StartTime(r.start), Transport(r), r.verb, r.udig, r.chat, Decimal(r.blobSize), Duration(r));
    RecordText(r);
  }

  lemma {:induction false} RecordText(r: Request)
    requires FromServer(r)
    ensures var line := Record(r); line != [] && line[|line| - 1] == '\n'
    ensures var line := Record(r);
      line[..|line| - 1] == StartTime(r.start) + ['\t'] + Transport(r) + ['\t'] + r.verb + ['\t'] + r.udig + ['\t'] +
                            r.chat + ['\t'] + Decimal(r.blobSize) + ['\t'] + Duration(r)
  {
    hide StartTime, Transport, Decimal, Padded;
  }

  /** A record read back is the request it was written for. */
  lemma {:induction false} RecordReads(r: Request)
    requires FromServer(r) && Fits(r)
    ensures ReadRecord(Record(r)) == Some(r)
  {
    hide Record, StartTime, Transport, Decimal, Padded, Duration, Split, ReadTime, ReadTransport, ReadDecimal;
    RecordFields(r);
    TimeReads(r.start);
    TransportReads(r);
    DecimalReads(r.blobSize);
    DurationReads(r);
  }

  /** So equal records come from equal requests. */
  lemma {:induction false} RecordsDiffer(r: Request, q: Request)
    requires FromServer(r) && Fits(r) && FromServer(q) && Fits(q)
    ensures Record(r) == Record(q) <==> r == q
  {
    RecordReads(r);
    RecordReads(q);
  }
}
