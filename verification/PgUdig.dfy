/** The udig type of the PostgreSQL extension (sync/pgsql/contrib/udig/udig.c). */
module PgUdig {
  // A type byte and the 20 bytes of a digest, read and printed as text. The order of the bytes is meant to be
  // the order of the texts.

  import opened Text
  import opened UdigSet

  type Byte = b: int | 0 <= b < 256
  type Digest = d: seq<Byte> | |d| == 20 witness seq(20, _ => 0)

  /** A stored udig is the type byte, then the digest. */
  datatype Stored = Stored(tag: Byte, digest: Digest)

  const UDIG_SHA: Byte := 1
  const UDIG_BC160: Byte := 2
  const UDIG_BTC20: Byte := 3

  function Tag(m: Module): Byte {
    match m
    case Sha => UDIG_SHA
    case Bc160 => UDIG_BC160
    case Btc20 => UDIG_BTC20
  }

  ghost predicate Sound(u: Stored) {
    exists m :: u.tag == Tag(m)
  }

  // ---- Hexadecimal ---------------------------------------------------------------------------------

  function HexChar(n: int): char
    requires 0 <= n < 16
  {
    if n < 10 then '0' + n as char else 'a' + (n - 10) as char
  }

  function Nibble(c: char): int
    requires HexDigit(c)
  {
    if c <= '9' then c as int - '0' as int else c as int - 'a' as int + 10
  }

  lemma {:induction false} NibbleOfHex(n: int)
    requires 0 <= n < 16
    ensures HexDigit(HexChar(n)) && Nibble(HexChar(n)) == n
  {
  }

  lemma {:induction false} HexOfNibble(c: char)
    requires HexDigit(c)
    ensures 0 <= Nibble(c) < 16 && HexChar(Nibble(c)) == c
  {
  }

  /** Two digits for each byte, the high one first. */
  function Hex(d: seq<Byte>): (h: string)
    ensures |h| == 2 * |d|
  {
    if d == [] then [] else [HexChar(d[0] / 16), HexChar(d[0] % 16)] + Hex(d[1..])
  }

  lemma {:induction false} HexAt(d: seq<Byte>, i: nat)
    requires i < |d|
    ensures Hex(d)[2 * i] == HexChar(d[i] / 16) && Hex(d)[2 * i + 1] == HexChar(d[i] % 16)
  {
    if i > 0 {
      HexAt(d[1..], i - 1);
      assert Hex(d)[2 * i] == Hex(d[1..])[2 * (i - 1)];
      assert Hex(d)[2 * i + 1] == Hex(d[1..])[2 * (i - 1) + 1];
    }
  }

  lemma {:induction false} HexIsDigest(d: Digest)
    ensures IsDigest(Hex(d))
  {
    forall i | 0 <= i < 40 ensures HexDigit(Hex(d)[i]) {
      HexAt(d, i / 2);
      NibbleOfHex(d[i / 2] / 16);
      NibbleOfHex(d[i / 2] % 16);
      assert i == 2 * (i / 2) || i == 2 * (i / 2) + 1;
    }
  }

  lemma {:induction false} HexInjective(d: seq<Byte>, e: seq<Byte>)
    requires Hex(d) == Hex(e)
    ensures d == e
  {
    if d != [] && e != [] {
      var g, h := Hex(d), Hex(e);
      assert g[0] == h[0] && g[1] == h[1] && g[2..] == h[2..];
      assert g[2..] == Hex(d[1..]) && h[2..] == Hex(e[1..]);
      NibbleOfHex(d[0] / 16);
      NibbleOfHex(d[0] % 16);
      NibbleOfHex(e[0] / 16);
      NibbleOfHex(e[0] % 16);
      assert d[0] == e[0];
      HexInjective(d[1..], e[1..]);
      assert d == [d[0]] + d[1..] && e == [e[0]] + e[1..];
    }
  }

  /** What hex2dig20 has done after `i` digits. */
  ghost predicate Decoded(hex: string, d: seq<Byte>, i: nat) {
    && |d| == 20 && i <= 40 && i <= |hex|
    && (forall k :: 0 <= k < i ==> HexDigit(hex[k]))
    && (forall k {:trigger d[k]} :: 0 <= k < i / 2 ==> d[k] == 16 * Nibble(hex[2 * k]) + Nibble(hex[2 * k + 1]))
    && (i % 2 == 1 ==> d[i / 2] == 16 * Nibble(hex[i - 1]))
    && (forall k :: (i + 1) / 2 <= k < 20 ==> d[k] == 0)
  }

  lemma {:induction false} TwoNibbles(a: int, b: int)
    requires 0 <= a < 16 && 0 <= b < 16
    ensures (16 * a + b) / 16 == a && (16 * a + b) % 16 == b
  {
  }

  lemma {:induction false} DecodedAt(hex: string, d: seq<Byte>, k: nat)
    requires |hex| == 40 && Decoded(hex, d, 40) && k < 20
    ensures Hex(d)[2 * k] == hex[2 * k] && Hex(d)[2 * k + 1] == hex[2 * k + 1]
  {
    hide Hex, HexChar, Nibble, HexDigit;
    HexAt(d, k);
    HexOfNibble(hex[2 * k]);
    HexOfNibble(hex[2 * k + 1]);
    TwoNibbles(Nibble(hex[2 * k]), Nibble(hex[2 * k + 1]));
  }

  lemma {:induction false} DecodedIsHex(hex: string, d: seq<Byte>)
    requires |hex| == 40 && |d| == 20 && Decoded(hex, d, 40)
    ensures Hex(d) == hex
  {
    hide Hex, Decoded;
    forall i | 0 <= i < 40 ensures Hex(d)[i] == hex[i] {
      DecodedAt(hex, d, i / 2);
      assert i == 2 * (i / 2) || i == 2 * (i / 2) + 1;
    }
  }

  lemma {:induction false} DecodedNext(hex: string, d: seq<Byte>, i: nat, nib: Byte)
    requires Decoded(hex, d, i) && i < 40 && i < |hex| && HexDigit(hex[i])
    requires nib == if i % 2 == 0 then 16 * Nibble(hex[i]) else Nibble(hex[i])
    ensures d[i / 2] + nib < 256 && Decoded(hex, d[i / 2 := d[i / 2] + nib], i + 1)
  {
    HexOfNibble(hex[i]);
    if i % 2 == 1 {
      HexOfNibble(hex[i - 1]);
    }
  }

  /** Reads 40 hex digits, and nothing after them, into 20 bytes. */
  method Hex2Dig20(hex: string, d20: array<Byte>) returns (ok: bool)
    requires d20.Length == 20
    modifies d20
    ensures ok <==> IsDigest(hex)
    ensures ok ==> Hex(d20[..]) == hex
  {
    for i := 0 to 20
      invariant forall k :: 0 <= k < i ==> d20[k] == 0
    {
      d20[i] := 0;
    }
    for i := 0 to 40
      invariant Decoded(hex, d20[..], i)
    {
      if i == |hex| || !HexDigit(hex[i]) {
        return false;
      }
      HexOfNibble(hex[i]);
      var nib: Byte := if i % 2 == 0 then 16 * Nibble(hex[i]) else Nibble(hex[i]);
      DecodedNext(hex, d20[..], i, nib);
      ghost var was := d20[..];
      d20[i / 2] := d20[i / 2] + nib;
      assert d20[..] == was[i / 2 := was[i / 2] + nib];
    }
    ok := |hex| == 40;
    if ok {
      DecodedIsHex(hex, d20[..]);
    }
  }

  /** Prints 20 bytes as 40 hex digits and a null. */
  method Dig2Hex40(d20: array<Byte>, d40: array<char>)
    requires d20.Length == 20 && d40.Length == 41
    modifies d40
    ensures d40[..40] == Hex(d20[..]) && d40[40] == 0 as char
  {
    for k := 0 to 20
      invariant forall i {:trigger d40[i]} :: 0 <= i < 2 * k ==> d40[i] == HexChar(if i % 2 == 0 then d20[i / 2] / 16 else d20[i / 2] % 16)
    {
      d40[2 * k] := HexChar(d20[k] / 16);
      d40[2 * k + 1] := HexChar(d20[k] % 16);
    }
    d40[40] := 0 as char;
    forall i | 0 <= i < 40 ensures d40[..40][i] == Hex(d20[..])[i] {
      HexAt(d20[..], i / 2);
      assert i == 2 * (i / 2) || i == 2 * (i / 2) + 1;
    }
  }

  // ---- Text ----------------------------------------------------------------------------------------

  /** The module of a stored udig. */
  function ModuleOf(u: Stored): Module
    requires Sound(u)
  {
    if u.tag == UDIG_SHA then Sha else if u.tag == UDIG_BC160 then Bc160 else Btc20
  }

  function UdigOut(u: Stored): string
    requires Sound(u)
  {
    Name(ModuleOf(u)) + [':'] + Hex(u.digest)
  }

  /** The module whose name stands in a8 before its null. */
  method AlgorithmIn(a8: array<char>) returns (m: Option<Module>)
    requires a8.Length == 9
    ensures m.Some? ==> |Name(m.value)| < 9 && a8[..|Name(m.value)|] == Name(m.value) && a8[|Name(m.value)|] == 0 as char
    ensures m.None? ==> forall k: Module :: a8[..|Name(k)|] != Name(k) || a8[|Name(k)|] != 0 as char
  {
    if a8[0] == 'b' && a8[1] == 't' && a8[2] == 'c' && a8[3] == '2' && a8[4] == '0' && a8[5] == 0 as char {
      m := Some(Btc20);
    } else if a8[0] == 's' && a8[1] == 'h' && a8[2] == 'a' && a8[3] == 0 as char {
      m := Some(Sha);
    } else if a8[0] == 'b' && a8[1] == 'c' && a8[2] == '1' && a8[3] == '6' && a8[4] == '0' && a8[5] == 0 as char {
      m := Some(Bc160);
    } else {
      m := None;
    }
  }

  /** The algorithm before the first colon, if that comes within eight characters. */
  method ParseAlgorithm(udig: string, a8: array<char>) returns (colon: Option<nat>)
    requires a8.Length == 9
    modifies a8
    ensures colon.Some? ==> colon.value < |udig| && colon.value < 8 && udig[colon.value] == ':'
    ensures colon.Some? ==> a8[..colon.value] == udig[..colon.value] && a8[colon.value] == 0 as char
    ensures colon.Some? ==> forall i :: 0 <= i < colon.value ==> Graphic(udig[i]) && udig[i] != ':'
    ensures colon.None? ==> forall i :: 0 <= i < |udig| && i < 8 && udig[i] == ':' ==> exists j :: 0 <= j < i && !Graphic(udig[j])
  {
    a8[8] := ':';
    var u := 0;
    while u < |udig| && u < 8
      invariant u <= |udig| && u <= 8 && a8[..u] == udig[..u]
      invariant forall i :: 0 <= i < u ==> Graphic(udig[i]) && udig[i] != ':'
    {
      var c := udig[u];
      if !Graphic(c) {
        return None;
      }
      if c == ':' {
        a8[u], a8[8] := 0 as char, 0 as char;
        return Some(u);
      }
      a8[u] := c;
      u := u + 1;
      assert a8[..u] == a8[..u - 1] + [c] && udig[..u] == udig[..u - 1] + [c];
    }
    colon := None;
  }

  /** The colon of a printed udig is the first, and comes within eight graphic characters. */
  lemma {:induction false} ColonOfOut(v: Stored)
    requires Sound(v)
    ensures var t := UdigOut(v); var n := |Name(ModuleOf(v))|;
      n < 8 && n < |t| && t[n] == ':' && (forall i :: 0 <= i < n ==> t[i] != ':' && Graphic(t[i]))
      && t[..n] == Name(ModuleOf(v)) && t[n + 1..] == Hex(v.digest)
  {
    var t, name := UdigOut(v), Name(ModuleOf(v));
    assert forall i :: 0 <= i < |name| ==> t[i] == name[i];
  }

  /** The type byte on disk and the name before the colon. */
  lemma {:induction false} TypeBytes(v: Stored)
    requires Sound(v)
    ensures v.tag == 1 <==> "sha:" <= UdigOut(v)
    ensures v.tag == 2 <==> "bc160:" <= UdigOut(v)
    ensures v.tag == 3 <==> "btc20:" <= UdigOut(v)
    ensures v.tag in {1, 2, 3}
  {
    hide Hex;
    var t, m := UdigOut(v), ModuleOf(v);
    assert t == Name(m) + [':'] + Hex(v.digest);
    assert t[0] == Name(m)[0] && t[1] == Name(m)[1];
    assert v.tag == 1 ==> t[..4] == "sha:";
    assert v.tag == 2 ==> t[..6] == "bc160:";
    assert v.tag == 3 ==> t[..6] == "btc20:";
  }

  /** udig_in: takes a text exactly when it is the text of a udig, and gives that udig with the type byte of its name. */
  method UdigIn(udig: string) returns (u: Option<Stored>)
    ensures u.Some? ==> Sound(u.value) && UdigOut(u.value) == udig
    ensures u.Some? ==> (u.value.tag == 1 <==> "sha:" <= udig) && (u.value.tag == 2 <==> "bc160:" <= udig) && (u.value.tag == 3 <==> "btc20:" <= udig)
    ensures u.None? ==> forall v :: Sound(v) ==> UdigOut(v) != udig
  {
    hide Hex, Name, HexDigit;
    var a8 := new char[9];
    var colon := ParseAlgorithm(udig, a8);
    forall v | Sound(v) && UdigOut(v) == udig
      ensures colon == Some(|Name(ModuleOf(v))|)
      ensures udig[..colon.value] == Name(ModuleOf(v)) && udig[colon.value + 1..] == Hex(v.digest)
    {
      ColonOfOut(v);
      assert udig[|Name(ModuleOf(v))|] == ':';
    }
    if colon.None? {
      return None;
    }
    var m := AlgorithmIn(a8);
    if m.None? {
      return None;
    }
    var d20 := new Byte[20](_ => 0);
    var ok := Hex2Dig20(udig[colon.value + 1..], d20);
    if !ok {
      forall v | Sound(v) ensures UdigOut(v) != udig {
        HexIsDigest(v.digest);
      }
      return None;
    }
    u := Some(Stored(Tag(m.value), d20[..]));
    NameEnds(m.value, a8[..], udig, colon.value);
    assert Sound(u.value) && ModuleOf(u.value) == m.value;
    assert udig == udig[..colon.value] + [':'] + udig[colon.value + 1..];
    TypeBytes(u.value);
  }

  /** A name and its null in a8 is what was read before the colon. */
  lemma {:induction false} NameEnds(m: Module, a8: string, udig: string, colon: nat)
    requires |a8| == 9 && colon < 8 && colon < |udig| && a8[..colon] == udig[..colon] && a8[colon] == 0 as char
    requires forall i :: 0 <= i < colon ==> Graphic(udig[i])
    requires a8[..|Name(m)|] == Name(m) && a8[|Name(m)|] == 0 as char
    ensures udig[..colon] == Name(m)
  {
    assert forall i :: 0 <= i < colon ==> a8[i] == udig[i];
    assert forall i :: 0 <= i < |Name(m)| ==> a8[i] == Name(m)[i];
    assert |Name(m)| >= colon by {
      assert forall i :: 0 <= i < colon ==> Graphic(a8[i]);
    }
    assert forall i :: 0 <= i < |Name(m)| ==> Name(m)[i] != 0 as char;
  }

  /** What is printed reads back as the same udig. */
  method RoundTrip(v: Stored) returns (u: Option<Stored>)
    requires Sound(v)
    ensures u == Some(v)
  {
    u := UdigIn(UdigOut(v));
    OutInjective(u.value, v);
  }

  lemma {:induction false} OutInjective(u: Stored, v: Stored)
    requires Sound(u) && Sound(v) && UdigOut(u) == UdigOut(v)
    ensures u == v
  {
    ColonOfOut(u);
    ColonOfOut(v);
    assert |Name(ModuleOf(u))| == |Name(ModuleOf(v))|;
    HexInjective(u.digest, v.digest);
    assert Name(ModuleOf(u)) == Name(ModuleOf(v));
    NamesDiffer(ModuleOf(u), ModuleOf(v));
  }

  lemma {:induction false} NamesDiffer(m: Module, n: Module)
    requires Name(m) == Name(n)
    ensures m == n
  {
    assert Name(Bc160)[1] == 'c' && Name(Btc20)[1] == 't';
  }

  // ---- Order ---------------------------------------------------------------------------------------

  /** The sign of memcmp over equally long bytes. */
  function MemCmp(a: seq<Byte>, b: seq<Byte>): int
    requires |a| == |b|
  {
    if a == [] then 0 else if a[0] < b[0] then -1 else if a[0] > b[0] then 1 else MemCmp(a[1..], b[1..])
  }

  /** The sign of strcmp. */
  function TextCmp(a: string, b: string): int {
    if a == [] then if b == [] then 0 else -1
    else if b == [] then 1
    else if a[0] < b[0] then -1 else if a[0] > b[0] then 1 else TextCmp(a[1..], b[1..])
  }

  function UdigCmp(a: Stored, b: Stored): int
    requires Sound(a) && Sound(b)
  {
    if a.tag == b.tag then MemCmp(a.digest, b.digest)
    else if a.tag == UDIG_BTC20 then if b.tag == UDIG_SHA then -1 else 1
    else if a.tag == UDIG_SHA then 1
    else -1
  }

  lemma {:induction false} TextCmpPrefix(p: string, a: string, b: string)
    ensures TextCmp(p + a, p + b) == TextCmp(a, b)
  {
    if p == [] {
      assert p + a == a && p + b == b;
    } else {
      assert (p + a)[1..] == p[1..] + a && (p + b)[1..] == p[1..] + b;
      TextCmpPrefix(p[1..], a, b);
    }
  }

  lemma {:induction false} HexOrder(m: int, n: int)
    requires 0 <= m < 16 && 0 <= n < 16
    ensures HexChar(m) < HexChar(n) <==> m < n
    ensures HexChar(m) == HexChar(n) <==> m == n
  {
  }

  /** Hex digits keep the order of the bytes. */
  lemma {:induction false} HexKeepsOrder(d: seq<Byte>, e: seq<Byte>)
    requires |d| == |e|
    ensures TextCmp(Hex(d), Hex(e)) == MemCmp(d, e)
  {
    if d != [] {
      var g, h := Hex(d), Hex(e);
      HexOrder(d[0] / 16, e[0] / 16);
      HexOrder(d[0] % 16, e[0] % 16);
      assert g[1..][1..] == Hex(d[1..]) && h[1..][1..] == Hex(e[1..]);
      assert g[1] == g[1..][0] && h[1] == h[1..][0];
      HexKeepsOrder(d[1..], e[1..]);
    }
  }

  /** The order of the stored form is the order of the texts. */
  lemma {:induction false} OrderIsTextOrder(a: Stored, b: Stored)
    requires Sound(a) && Sound(b)
    ensures UdigCmp(a, b) == TextCmp(UdigOut(a), UdigOut(b))
  {
    var m, n := ModuleOf(a), ModuleOf(b);
    if m == n {
      TextCmpPrefix(Name(m) + [':'], Hex(a.digest), Hex(b.digest));
      HexKeepsOrder(a.digest, b.digest);
    } else {
      var s, t := UdigOut(a), UdigOut(b);
      assert s[0] == Name(m)[0] && t[0] == Name(n)[0];
      assert s[1..][0] == Name(m)[1] && t[1..][0] == Name(n)[1];
    }
  }

  lemma {:induction false} MemCmpLaws(a: seq<Byte>, b: seq<Byte>, c: seq<Byte>)
    requires |a| == |b| == |c|
    ensures MemCmp(a, b) == 0 <==> a == b
    ensures MemCmp(b, a) == -MemCmp(a, b)
    ensures MemCmp(a, b) <= 0 && MemCmp(b, c) <= 0 ==> MemCmp(a, c) <= 0
  {
    if a != [] {
      MemCmpLaws(a[1..], b[1..], c[1..]);
      assert a == [a[0]] + a[1..] && b == [b[0]] + b[1..];
    }
  }

  /** A total order: reflexive only on equals, antisymmetric, transitive, and any two are comparable. */
  lemma {:induction false} TotalOrder(a: Stored, b: Stored, c: Stored)
    requires Sound(a) && Sound(b) && Sound(c)
    ensures UdigCmp(a, b) == 0 <==> a == b
    ensures UdigCmp(b, a) == -UdigCmp(a, b)
    ensures UdigCmp(a, b) <= 0 && UdigCmp(b, c) <= 0 ==> UdigCmp(a, c) <= 0
  {
    MemCmpLaws(a.digest, b.digest, c.digest);
  }

  // ---- Across types --------------------------------------------------------------------------------

  function Cast(m: Module, d: Digest): Stored {
    Stored(Tag(m), d)
  }

  function ShaCmpUdig(a: Digest, b: Stored): int requires Sound(b) {
    if b.tag == UDIG_SHA then MemCmp(a, b.digest) else 1
  }

  function CmpSha(a: Stored, b: Digest): int requires Sound(a) {
    if a.tag == UDIG_SHA then MemCmp(a.digest, b) else -1
  }

  function Btc20CmpUdig(a: Digest, b: Stored): int requires Sound(b) {
    if b.tag == UDIG_BTC20 then MemCmp(a, b.digest) else if b.tag == UDIG_SHA then -1 else 1
  }

  function CmpBtc20(a: Stored, b: Digest): int requires Sound(a) {
    if a.tag == UDIG_BTC20 then MemCmp(a.digest, b) else if a.tag == UDIG_SHA then 1 else -1
  }

  function Bc160CmpUdig(a: Digest, b: Stored): int requires Sound(b) {
    if b.tag == UDIG_SHA || b.tag == UDIG_BTC20 then -1 else MemCmp(a, b.digest)
  }

  function CmpBc160(a: Stored, b: Digest): int requires Sound(a) {
    if a.tag == UDIG_BTC20 || a.tag == UDIG_SHA then -1 else MemCmp(a.digest, b)
  }

  /** Comparing across types is comparing after the cast: so it is the text order too. */
  lemma {:induction false} CrossTypesAgree(d: Digest, u: Stored)
    requires Sound(u)
    ensures ShaCmpUdig(d, u) == TextCmp(UdigOut(Cast(Sha, d)), UdigOut(u))
    ensures CmpSha(u, d) == TextCmp(UdigOut(u), UdigOut(Cast(Sha, d)))
    ensures Btc20CmpUdig(d, u) == TextCmp(UdigOut(Cast(Btc20, d)), UdigOut(u))
    ensures CmpBtc20(u, d) == TextCmp(UdigOut(u), UdigOut(Cast(Btc20, d)))
    ensures Bc160CmpUdig(d, u) == TextCmp(UdigOut(Cast(Bc160, d)), UdigOut(u))
  {
    assert Sound(Cast(Sha, d)) && Sound(Cast(Btc20, d)) && Sound(Cast(Bc160, d));
    OrderIsTextOrder(Cast(Sha, d), u);
    OrderIsTextOrder(u, Cast(Sha, d));
    OrderIsTextOrder(Cast(Btc20, d), u);
    OrderIsTextOrder(u, Cast(Btc20, d));
    OrderIsTextOrder(Cast(Bc160, d), u);
  }

  /** But for a udig against a bc160: that is right exactly when the udig is a bc160 too. */
  lemma {:induction false} CmpBc160Exactly(u: Stored, d: Digest)
    requires Sound(u)
    ensures CmpBc160(u, d) == TextCmp(UdigOut(u), UdigOut(Cast(Bc160, d))) <==> u.tag == UDIG_BC160
  {
    assert Sound(Cast(Bc160, d));
    OrderIsTextOrder(u, Cast(Bc160, d));
  }
}
