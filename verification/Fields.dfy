/** Texts of numbers and of fields, read back. */
module Fields {
  import opened Text

  predicate Digits(s: string) {
    forall i :: 0 <= i < |s| ==> '0' <= s[i] <= '9'
  }

  /** The number a text of digits stands for; any other character counts as 0. */
  function ReadDecimal(s: string): nat {
    if s == [] then 0
    else
      var c := s[|s| - 1];
      10 * ReadDecimal(s[..|s| - 1]) + if '0' <= c <= '9' then c as int - '0' as int else 0
  }

  lemma {:induction false} DigitReads(s: string, d: nat)
    requires Digits(s) && d < 10
    ensures Digits(s + [Digit(d)]) && ReadDecimal(s + [Digit(d)]) == 10 * ReadDecimal(s) + d
  {
    assert (s + [Digit(d)])[..|s|] == s;
  }

  lemma {:induction false} DecimalReads(n: nat)
    ensures Digits(Decimal(n)) && ReadDecimal(Decimal(n)) == n
    ensures n > 0 ==> Decimal(n)[0] != '0'
  {
    if n < 10 {
      DigitReads([], n);
      assert [] + [Digit(n)] == [Digit(n)];
    } else {
      DecimalReads(n / 10);
      DigitReads(Decimal(n / 10), n % 10);
    }
  }

  lemma {:induction false} PaddedReads(n: nat, width: nat)
    requires n < Power10(width)
    ensures Digits(Padded(n, width)) && ReadDecimal(Padded(n, width)) == n
    decreases width
  {
    if width > 0 {
      PaddedReads(n / 10, width - 1);
      DigitReads(Padded(n / 10, width - 1), n % 10);
    }
  }

  /** Where the character first stands, or the length of the text. */
  function Find(s: string, c: char): (i: nat)
    ensures i <= |s| && c !in s[..i] && (i < |s| ==> s[i] == c)
  {
    if s == [] || s[0] == c then 0
    else
      var i := Find(s[1..], c) + 1;
      assert s[..i] == [s[0]] + s[1..][..i - 1];
      i
  }

  /** The parts of a text between the places where the character stands. */
  function Split(s: string, c: char): seq<string>
    decreases |s|
  {
    var i := Find(s, c);
    if i == |s| then [s] else [s[..i]] + Split(s[i + 1..], c)
  }

  lemma {:induction false} SplitOne(s: string, c: char)
    requires c !in s
    ensures Split(s, c) == [s]
  {
    assert Find(s, c) == |s|;
  }

  lemma {:induction false} SplitFirst(a: string, c: char, b: string)
    requires c !in a
    ensures Split(a + [c] + b, c) == [a] + Split(b, c)
  {
    var s := a + [c] + b;
    var i := Find(s, c);
    assert s[|a|] == c;
    assert forall k :: 0 <= k < |a| ==> a[k] == s[k];
    assert forall k :: 0 <= k < i ==> s[k] in s[..i];
    assert i == |a|;
    assert s[..i] == a && s[i + 1..] == b;
  }
}
