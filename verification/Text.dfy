/** Plain text helpers shared by several components. */
module Text {
  datatype Option<+T> = None | Some(value: T)

  /** The character of one decimal digit. */
  function Digit(d: nat): (c: char)
    requires d < 10
    ensures '0' <= c <= '9'
  {
    '0' + d as char
  }

  /** A natural number in decimal, without leading zeros. */
  function Decimal(n: nat): (s: string)
    ensures 0 < |s|
  {
    if n < 10 then [Digit(n)] else Decimal(n / 10) + [Digit(n % 10)]
  }

  /** The last `width` decimal digits, with leading zeros: %0<width>u for a number that fits. */
  function Padded(n: nat, width: nat): (s: string)
    ensures |s| == width
    decreases width
  {
    if width == 0 then [] else Padded(n / 10, width - 1) + [Digit(n % 10)]
  }

  function Power10(k: nat): (p: nat)
    ensures p > 0
  {
    if k == 0 then 1 else 10 * Power10(k - 1)
  }

  lemma {:induction false} PaddedInjective(m: nat, n: nat, width: nat)
    requires m < Power10(width) && n < Power10(width) && Padded(m, width) == Padded(n, width)
    ensures m == n
    decreases width
  {
    if width > 0 {
      var a, b := Padded(m, width), Padded(n, width);
      assert a[..width - 1] == Padded(m / 10, width - 1) && b[..width - 1] == Padded(n / 10, width - 1);
      assert a[width - 1] == b[width - 1];
      PaddedInjective(m / 10, n / 10, width - 1);
    }
  }
}
