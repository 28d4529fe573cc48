/** Decimal rendering of natural numbers (`str(n)` and the `{n:0Wd}` format)
    and the log file name format of the data generator. */
module Text {

  predicate IsDigit(c: char) {
    '0' <= c <= '9'
  }

  predicate AllDigits(s: string) {
    forall i :: 0 <= i < |s| ==> IsDigit(s[i])
  }

  function DigitChar(d: nat): (c: char)
    requires d < 10
    ensures IsDigit(c) && (c as int) - ('0' as int) == d
  {
    ('0' as int + d) as char
  }

  /** `str(n)`: the shortest decimal numeral of n. */
  function NatToString(n: nat): (s: string)
    ensures 1 <= |s| && AllDigits(s)
    ensures |s| > 1 ==> s[0] != '0'
  {
    if n < 10 then [DigitChar(n)] else NatToString(n / 10) + [DigitChar(n % 10)]
  }

  /** The number a numeral denotes (leading zeros allowed). */
  function DigitsValue(s: string): nat
    requires AllDigits(s)
  {
    if s == [] then 0 else DigitsValue(s[..|s| - 1]) * 10 + ((s[|s| - 1] as int) - ('0' as int))
  }

  /** Reading back a rendered number gives the number. */
  lemma {:induction false} NatToStringValue(n: nat)
    ensures DigitsValue(NatToString(n)) == n
  {
    if n >= 10 {
      NatToStringValue(n / 10);
      var s := NatToString(n);
      assert s[..|s| - 1] == NatToString(n / 10);
    }
  }

  /** Different numbers are rendered differently. */
  lemma NatToStringInjective(a: nat, b: nat)
    requires NatToString(a) == NatToString(b)
    ensures a == b
  {
    NatToStringValue(a);
    NatToStringValue(b);
  }

  /** A rendered number below 10^k has at most k digits. */
  lemma {:induction false} NatToStringLength(n: nat, k: nat, bound: nat)
    requires bound == Pow10(k) && n < bound
    ensures |NatToString(n)| <= if k == 0 then 1 else k
  {
    if n >= 10 {
      assert Pow10(1) == 10;
      assert k >= 2;
      NatToStringLength(n / 10, k - 1, Pow10(k - 1));
    }
  }

  function Pow10(k: nat): (p: nat)
    ensures p >= 1
  {
    if k == 0 then 1 else 10 * Pow10(k - 1)
  }

  function Zeros(k: nat): (s: string)
    ensures |s| == k && AllDigits(s)
    ensures forall i :: 0 <= i < k ==> s[i] == '0'
  {
    if k == 0 then [] else Zeros(k - 1) + ['0']
  }

  /** `f"{n:0{width}d}"`: n rendered in decimal, left-padded with zeros to at
      least width characters (wider numbers are not truncated). */
  function ZeroPad(n: nat, width: nat): (s: string)
    ensures AllDigits(s)
  {
    var digits := NatToString(n);
    (if |digits| < width then Zeros(width - |digits|) else []) + digits
  }

  lemma {:induction false} LeadingZeros(k: nat, s: string)
    requires AllDigits(s)
    ensures AllDigits(Zeros(k) + s) && DigitsValue(Zeros(k) + s) == DigitsValue(s)
    decreases |s|
  {
    if s == [] {
      assert Zeros(k) + s == Zeros(k);
      ZerosValue(k);
    } else {
      var init := s[..|s| - 1];
      assert (Zeros(k) + s)[..|Zeros(k) + s| - 1] == Zeros(k) + init;
      LeadingZeros(k, init);
    }
  }

  lemma {:induction false} ZerosValue(k: nat)
    ensures DigitsValue(Zeros(k)) == 0
  {
    if k > 0 {
      assert Zeros(k)[..k - 1] == Zeros(k - 1);
      ZerosValue(k - 1);
    }
  }

  /** A padded number has at least the requested width, exactly that width when
      the number fits in it, and reads back as the number. */
  lemma ZeroPadSound(n: nat, width: nat)
    ensures |ZeroPad(n, width)| >= width
    ensures n < Pow10(width) && width > 0 ==> |ZeroPad(n, width)| == width
    ensures DigitsValue(ZeroPad(n, width)) == n
  {
    var digits := NatToString(n);
    NatToStringValue(n);
    if n < Pow10(width) && width > 0 {
      NatToStringLength(n, width, Pow10(width));
    }
    if |digits| < width {
      LeadingZeros(width - |digits|, digits);
    } else {
      assert ZeroPad(n, width) == digits;
    }
  }

  /** Position of the first occurrence of c. */
  function FirstIndex(s: string, c: char): (i: nat)
    requires c in s
    ensures i < |s| && s[i] == c && c !in s[..i]
  {
    if s[0] == c then 0 else 1 + FirstIndex(s[1..], c)
  }

  /** The first c in a + b, when a has none and b starts with one. */
  lemma FirstIndexAfter(a: string, c: char, b: string)
    requires c !in a && b != [] && b[0] == c
    ensures FirstIndex(a + b, c) == |a|
  {
    var s := a + b;
    assert s[..|a|] == a;
    assert s[|a|] == c;
    var i := FirstIndex(s, c);
    assert forall j :: 0 <= j < |a| ==> s[j] == a[j];
  }

  lemma Assoc<T>(a: seq<T>, b: seq<T>, c: seq<T>)
    ensures (a + b) + c == a + (b + c)
  {
  }

  /** The three parts of a + b + c. */
  lemma Slices<T>(a: seq<T>, b: seq<T>, c: seq<T>)
    ensures var s := a + b + c;
      && s[..|a|] == a && s[|a|..|a| + |b|] == b && s[|a| + |b|..] == c
      && s[|a|..] == b + c
  {
  }
}
