/**
  The text of a blob request record, and why the logger's length test cannot confuse it with a request to
  wrap (bio4d/brr.c, bio4d/bio4d.c, bio4d/net.c).
 */
module BrrRecord {
  import opened Text
  import opened UdigSet
  import BrrLogger

  // ---- Addresses -----------------------------------------------------------------------------------

  type Octet = b: int | 0 <= b < 256

  /** The four octets of an address, the high one first. */
  function Octets(addr: nat): (o: seq<Octet>)
    requires addr < 0x1_0000_0000
    ensures |o| == 4
  {
    [addr / 0x100_0000, addr / 0x1_0000 % 256, addr / 0x100 % 256, addr % 256]
  }

  /** Octets in decimal, with a dot between two. */
  function Dotted(o: seq<Octet>): string {
    if o == [] then [] else if |o| == 1 then Decimal(o[0]) else Decimal(o[0]) + ['.'] + Dotted(o[1..])
  }

  lemma {:induction false} DecimalOfOctet(n: Octet)
    ensures Decimal(n) ==
      if n < 10 then [Digit(n)]
      else if n < 100 then [Digit(n / 10), Digit(n % 10)]
      else [Digit(n / 100), Digit(n / 10 % 10), Digit(n % 10)]
    ensures 1 <= |Decimal(n)| <= 3
  {
    if n >= 10 {
      assert Decimal(n) == Decimal(n / 10) + [Digit(n % 10)];
      if n >= 100 {
        assert Decimal(n / 10) == Decimal(n / 10 / 10) + [Digit(n / 10 % 10)];
        assert n / 10 / 10 == n / 100;
      }
    }
  }

  lemma {:induction false} DottedSize(o: seq<Octet>)
    requires o != []
    ensures 2 * |o| - 1 <= |Dotted(o)| <= 4 * |o| - 1
  {
    DecimalOfOctet(o[0]);
    if |o| > 1 {
      DottedSize(o[1..]);
    }
  }

  const BUF_SIZE := 20

  /** *--cp = c */
  method PutBefore(c: char, buf: array<char>, cp: nat) returns (cp': nat)
    requires buf.Length == BUF_SIZE && 0 < cp <= BUF_SIZE
    modifies buf
    ensures cp' == cp - 1 && buf[cp'..] == [c] + old(buf[cp..])
  {
    cp' := cp - 1;
    buf[cp'] := c;
  }

  /** The digits of an octet, written backwards. */
  method WriteDigits(octet: Octet, buf: array<char>, cp: nat) returns (cp': nat)
    requires buf.Length == BUF_SIZE && 4 <= cp < BUF_SIZE
    modifies buf
    ensures cp' == cp - |Decimal(octet)| && cp - 3 <= cp'
    ensures buf[cp'..] == Decimal(octet) + old(buf[cp..])
  {
    DecimalOfOctet(octet);
    hide Decimal, Digit;
    var byte := octet;
    cp' := PutBefore(Digit(byte % 10), buf, cp);
    byte := byte / 10;
    if byte > 0 {
      cp' := PutBefore(Digit(byte % 10), buf, cp');
      byte := byte / 10;
      if byte > 0 {
        cp' := PutBefore(Digit(byte), buf, cp');
      }
    }
  }

  /** One octet written backwards, with the dot before it. */
  method WriteOctet(octet: Octet, buf: array<char>, cp: nat) returns (cp': nat)
    requires buf.Length == BUF_SIZE && 4 <= cp < BUF_SIZE
    modifies buf
    ensures cp' == cp - |Decimal(octet)| - 1 && cp - 4 <= cp'
    ensures buf[cp'..] == ['.'] + Decimal(octet) + old(buf[cp..])
  {
    hide Decimal;
    cp' := WriteDigits(octet, buf, cp);
    cp' := PutBefore('.', buf, cp');
  }

  /** What stands in the buffer after some octets: each with a dot before it, then the null. */
  function DotsBefore(o: seq<Octet>): string {
    if o == [] then [0 as char] else ['.'] + Decimal(o[0]) + DotsBefore(o[1..])
  }

  lemma {:induction false} DotsBeforeIsDotted(o: seq<Octet>)
    requires o != []
    ensures DotsBefore(o) == ['.'] + Dotted(o) + [0 as char]
  {
    if |o| == 1 {
      assert DotsBefore(o[1..]) == [0 as char];
    } else {
      DotsBeforeIsDotted(o[1..]);
    }
  }

  /** The address after four minus `n` shifts. */
  function Shifted(addr: nat, n: nat): nat
    requires n <= 4
  {
    if n == 4 then addr else if n == 3 then addr / 0x100 else if n == 2 then addr / 0x1_0000
    else if n == 1 then addr / 0x100_0000 else addr / 0x1_0000_0000
  }

  lemma {:induction false} ShiftedOctet(addr: nat, n: nat)
    requires addr < 0x1_0000_0000 && 0 < n <= 4
    ensures Shifted(addr, n) % 256 == Octets(addr)[n - 1] && Shifted(addr, n) / 256 == Shifted(addr, n - 1)
  {
  }

  lemma {:induction false} DotsStep(o: seq<Octet>, n: nat)
    requires 0 < n <= |o|
    ensures DotsBefore(o[n - 1..]) == ['.'] + Decimal(o[n - 1]) + DotsBefore(o[n..])
  {
    assert o[n - 1..][1..] == o[n..];
  }

  lemma {:induction false} TextStarts(addr: nat)
    requires addr < 0x1_0000_0000
    ensures DotsBefore(Octets(addr)[4..]) == [0 as char] && Shifted(addr, 4) == addr
  {
  }

  lemma {:induction false} TextEnds(addr: nat, text: string)
    requires addr < 0x1_0000_0000 && text == DotsBefore(Octets(addr)[0..])
    ensures |text| > 0 && text[1..] == Dotted(Octets(addr)) + [0 as char]
  {
    assert Octets(addr)[0..] == Octets(addr);
    DotsBeforeIsDotted(Octets(addr));
  }

  /** net_32addr2text: the digits never run out of the front of the buffer. */
  method Net32Addr2Text(addr: nat, buf: array<char>) returns (cp: nat)
    requires addr < 0x1_0000_0000 && buf.Length == BUF_SIZE
    modifies buf
    ensures cp < BUF_SIZE && buf[cp..] == Dotted(Octets(addr)) + [0 as char]
  {
    hide Decimal, DotsBefore, Dotted, Octets, Shifted;
    cp := BUF_SIZE - 1;
    buf[cp] := 0 as char;
    var rest, n := addr, 4;
    TextStarts(addr);
    while n > 0
      invariant 0 <= n <= 4 && rest == Shifted(addr, n)
      invariant 4 * n + 3 <= cp <= BUF_SIZE - 1
      invariant buf[cp..] == DotsBefore(Octets(addr)[n..])
    {
      ShiftedOctet(addr, n);
      DotsStep(Octets(addr), n);
      cp := WriteOctet(rest % 256, buf, cp);
      rest, n := rest / 256, n - 1;
    }
    TextEnds(addr, buf[cp..]);
    cp := cp + 1;
    assert buf[cp..] == buf[cp - 1..][1..];
  }

  // ---- Records -------------------------------------------------------------------------------------

  datatype Time = Time(year: nat, month: nat, day: nat, hour: nat, minute: nat, second: nat, nano: nat)

  /** What a request leaves for its record. */
  datatype Request = Request(
    start: Time, remote: nat, remotePort: nat, bind: nat, bindPort: nat,
    verb: string, udig: string, chat: string, blobSize: nat, seconds: nat, nanoseconds: nat)

  /** RFC 3339, section 5.6, with nine digits of a second and a numeric offset. */
  function StartTime(t: Time): (s: string)
    ensures |s| == 35
  {
    Padded(t.year, 4) + ['-'] + Padded(t.month, 2) + ['-'] + Padded(t.day, 2) + ['T'] + Padded(t.hour, 2) + [':'] +
    Padded(t.minute, 2) + [':'] + Padded(t.second, 2) + ['.'] + Padded(t.nano, 9) + "+00:00"
  }

  function Transport(r: Request): string
    requires r.remote < 0x1_0000_0000 && r.bind < 0x1_0000_0000
  {
    "tcp4~" + Dotted(Octets(r.bind)) + [':'] + Decimal(r.bindPort) + [';'] +
    Dotted(Octets(r.remote)) + [':'] + Decimal(r.remotePort)
  }

  function Record(r: Request): string
    requires r.remote < 0x1_0000_0000 && r.bind < 0x1_0000_0000
  {
    StartTime(r.start) + ['\t'] + Transport(r) + ['\t'] + r.verb + ['\t'] + r.udig + ['\t'] + r.chat + ['\t'] +
    Decimal(r.blobSize) + ['\t'] + Decimal(r.seconds) + ['.'] + Padded(r.nanoseconds, 9) + ['\n']
  }

  /** A number of at most `k` digits. */
  lemma {:induction false} DecimalSize(n: nat, k: nat)
    requires k > 0 && n < Power10(k)
    ensures 1 <= |Decimal(n)| <= k
    decreases k
  {
    if n >= 10 {
      assert k > 1 by {
        assert Power10(0) == 1 && Power10(1) == 10 * Power10(0);
      }
      DecimalSize(n / 10, k - 1);
    }
  }

  lemma {:induction false} Power10Is20()
    ensures Power10(5) == 100000 && Power10(20) > 0x1_0000_0000_0000_0000
  {
    assert Power10(4) == 10000 && Power10(5) == 100000;
    assert Power10(8) == 100000000 && Power10(12) == 1000000000000;
    assert Power10(16) == 10000000000000000 && Power10(20) == 100000000000000000000;
  }

  ghost predicate FromServer(r: Request) {
    && r.remote < 0x1_0000_0000 && r.bind < 0x1_0000_0000 && r.remotePort < 0x1_0000 && r.bindPort < 0x1_0000
    && r.verb in {"get", "put", "give", "take", "eat", "wrap", "roll", "cat"}
    && (CompiledUdig(r.udig) || exists m :: r.udig == Name(m))
    && r.chat in {"ok", "no", "ok,ok", "ok,no", "ok,ok,ok", "ok,ok,no"}
    && r.blobSize < 0x1_0000_0000_0000_0000 && r.seconds < 0x8000_0000_0000_0000
  }

  lemma {:induction false} FieldSizes(r: Request)
    requires FromServer(r)
    ensures 3 <= |r.verb| <= 4 && 3 <= |r.udig| <= 46 && 2 <= |r.chat| <= 8
  {
    if CompiledUdig(r.udig) {
      var m, d :| IsDigest(d) && r.udig == Name(m) + [':'] + d;
    }
  }

  lemma {:induction false} TransportSize(r: Request)
    requires FromServer(r)
    ensures 23 <= |Transport(r)| <= 48
  {
    Power10Is20();
    DottedSize(Octets(r.bind));
    DottedSize(Octets(r.remote));
    DecimalSize(r.bindPort, 5);
    DecimalSize(r.remotePort, 5);
  }

  lemma {:induction false} RecordSize(r: Request)
    requires FromServer(r)
    ensures 25 < |Record(r)| <= 255
  {
    Power10Is20();
    FieldSizes(r);
    TransportSize(r);
    DecimalSize(r.blobSize, 20);
    DecimalSize(r.seconds, 20);
  }

  /** The logger takes every record for a record and every request to wrap for one. */
  lemma {:induction false} NeverConfused(r: Request, pid: nat)
    requires FromServer(r) && pid < Power10(10)
    ensures !BrrLogger.AsksForWrap(Record(r)) && |Record(r)| <= 255
    ensures BrrLogger.AsksForWrap(BrrLogger.FifoPath(pid))
  {
    RecordSize(r);
    BrrLogger.PathSizes(pid, 0, 0);
  }
}
