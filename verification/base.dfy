/**
 * Small value types shared by the training import and cache model:
 * nullable values, PHP's decimal rendering of integers, `implode`
 * and `strtolower`.
 */
module Base {

  /** A PHP value that may be `null`. */
  datatype Option<+T> = None | Some(value: T)

  /** One spreadsheet cell: the sheet client hands back strings, and a
      cell that is absent reads as `null`. */
  type Cell = Option<string>

  /** A floating-point value produced by a `(float)` cast; the model never
      computes with it, it only stores and copies it. */
  type Float = real

  /** A reading of the logical clock (seconds). */
  type Instant = int

  predicate IsDigit(c: char) {
    '0' <= c <= '9'
  }

  predicate AllDigits(s: string) {
    forall i :: 0 <= i < |s| ==> IsDigit(s[i])
  }

  function DigitChar(d: nat): (c: char)
    requires d < 10
    ensures IsDigit(c) && (c as int) - ('0' as int) == d
  {
    (('0' as int) + d) as char
  }

  function DigitValue(c: char): nat
    requires IsDigit(c)
  {
    (c as int) - ('0' as int)
  }

  /** The value of a string of decimal digits (leading zeros allowed). */
  function ParseNat(s: string): nat
    requires AllDigits(s)
  {
    if s == [] then 0 else ParseNat(s[..|s| - 1]) * 10 + DigitValue(s[|s| - 1])
  }

  function Pow10(k: nat): (p: nat)
    ensures p >= 1
  {
    if k == 0 then 1 else 10 * Pow10(k - 1)
  }

  lemma {:induction false} Pow10Monotone(a: nat, b: nat)
    requires a <= b
    ensures Pow10(a) <= Pow10(b)
    decreases b
  {
    if a < b {
      Pow10Monotone(a, b - 1);
    }
  }

  /** The last `w` decimal digits of `n`, zero-padded on the left. */
  function Digits(n: nat, w: nat): (s: string)
    ensures |s| == w && AllDigits(s)
  {
    if w == 0 then "" else Digits(n / 10, w - 1) + [DigitChar(n % 10)]
  }

  /** A number that fits in `w` digits reads back from its `w`-digit text. */
  lemma {:induction false} ParseNatOfDigits(n: nat, w: nat)
    requires n < Pow10(w)
    ensures ParseNat(Digits(n, w)) == n
  {
    if w > 0 {
      var s := Digits(n, w);
      assert s[..|s| - 1] == Digits(n / 10, w - 1);
      assert n / 10 < Pow10(w - 1);
      ParseNatOfDigits(n / 10, w - 1);
    }
  }

  /** How many decimal digits `n` has when written without leading zeros. */
  function DigitCount(n: nat): (k: nat)
    ensures 1 <= k && n < Pow10(k)
  {
    if n < 10 then 1 else 1 + DigitCount(n / 10)
  }

  /** The decimal text PHP produces when an integer is concatenated into
      a string (no sign, no leading zeros). */
  function NatToString(n: nat): (s: string)
    ensures 1 <= |s| && AllDigits(s)
  {
    Digits(n, DigitCount(n))
  }

  lemma ParseNatOfNatToString(n: nat)
    ensures ParseNat(NatToString(n)) == n
  {
    ParseNatOfDigits(n, DigitCount(n));
  }

  /** Rendering a number in decimal loses nothing. */
  lemma NatToStringInjective(a: nat, b: nat)
    ensures NatToString(a) == NatToString(b) <==> a == b
  {
    if NatToString(a) == NatToString(b) {
      ParseNatOfNatToString(a);
      ParseNatOfNatToString(b);
    }
  }

  /** PHP `implode(sep, xs)`. */
  function Join(xs: seq<string>, sep: string): (s: string)
    ensures xs == [] ==> s == ""
    ensures |xs| == 1 ==> s == xs[0]
  {
    if xs == [] then "" else if |xs| == 1 then xs[0] else xs[0] + sep + Join(xs[1..], sep)
  }

  /** Joining one more text appends the separator and that text. */
  lemma {:induction false} JoinAppend(xs: seq<string>, x: string, sep: string)
    requires xs != []
    ensures Join(xs + [x], sep) == Join(xs, sep) + sep + x
  {
    var ys := xs + [x];
    if |xs| == 1 {
      assert ys[1..] == [x];
    } else {
      assert ys[1..] == xs[1..] + [x];
      JoinAppend(xs[1..], x, sep);
      var j := Join(xs[1..], sep);
      assert Join(ys, sep) == xs[0] + sep + (j + sep + x);
      assert xs[0] + sep + (j + sep + x) == xs[0] + sep + j + sep + x;
    }
  }

  /** `strtolower` on one character: ASCII letters only, independent of
      the locale (PHP 8.2 and later). */
  function LowerChar(c: char): (l: char)
    ensures 'A' <= c <= 'Z' ==> l as int == c as int + 32
    ensures !('A' <= c <= 'Z') ==> l == c
  {
    if 'A' <= c <= 'Z' then ((c as int) + 32) as char else c
  }

  /** `strtolower`: no upper-case ASCII letter is left, and every other
      character is kept in place. */
  function Lower(s: string): (l: string)
    ensures |l| == |s|
    ensures forall i :: 0 <= i < |s| ==> l[i] == LowerChar(s[i])
    ensures forall i :: 0 <= i < |l| ==> !('A' <= l[i] <= 'Z')
  {
    if s == [] then [] else [LowerChar(s[0])] + Lower(s[1..])
  }
}
