/** The string helpers underneath the progress bar: repeating a glyph,
    padding a field to a fixed width, and the decimal text of a count. */
module Strings {

  /** `s` written `n` times in a row. */
  function Repeat(n: nat, s: string): (r: string)
    ensures |r| == n * |s|
  {
    if n == 0 then [] else s + Repeat(n - 1, s)
  }

  /** Copy `k` of `Repeat(n, s)` is `s` itself: character `j` of it sits
      at offset `k * |s| + j`. */
  lemma {:induction false} RepeatAt(n: nat, s: string, k: nat, j: nat)
    requires k < n && j < |s|
    ensures k * |s| + j < |Repeat(n, s)|
    ensures Repeat(n, s)[k * |s| + j] == s[j]
  {
    if k > 0 {
      RepeatAt(n - 1, s, k - 1, j);
      assert k * |s| == (k - 1) * |s| + |s|;
      assert n * |s| == (n - 1) * |s| + |s|;
    }
  }

  /** One more copy appended at the end is one more repetition, as each
      pass of `bulk_copy`'s loop does. */
  lemma {:induction false} RepeatAppend(n: nat, s: string)
    ensures Repeat(n, s) + s == Repeat(n + 1, s)
  {
    if n > 0 {
      RepeatAppend(n - 1, s);
      assert Repeat(n, s) + s == s + (Repeat(n - 1, s) + s);
    }
  }

  /** Repetition of nothing, or repetition zero times, is empty. */
  lemma RepeatEmpty(n: nat, s: string)
    requires n == 0 || s == []
    ensures Repeat(n, s) == []
  {
  }

  /** `bulk_copy`: append `src` to an initially empty string `time` times. */
  method BulkCopy(time: nat, src: string) returns (ret: string)
    ensures ret == Repeat(time, src)
  {
    if time == 0 || |src| == 0 {
      return [];
    }
    ret := [];
    var i := 0;
    while i < time
      invariant 0 <= i <= time
      invariant ret == Repeat(i, src)
    {
      RepeatAppend(i, src);
      ret := ret + src;
      i := i + 1;
    }
  }

  /** `std::string(n, c)`: the character `c`, `n` times. */
  function Fill(n: nat, c: char): (r: string)
    ensures |r| == n
    ensures forall i :: 0 <= i < n ==> r[i] == c
  {
    seq(n, _ => c)
  }

  /** The three text layouts of `formatter`. */
  datatype Layout = AlignLeft | AlignRight | AlignCenter

  /** Number of blanks `formatter` puts before the text when it has `gap`
      blanks to distribute: centring puts the odd blank on the left. */
  function LeadingBlanks(layout: Layout, gap: nat): (lead: nat)
    ensures lead <= gap
  {
    match layout
    case AlignLeft => 0
    case AlignRight => gap
    case AlignCenter => gap - gap / 2
  }

  /** `formatter`: pad `s` with blanks to `width` characters. A zero width
      gives the empty string and text already as wide as `width` is returned
      unchanged; otherwise the text sits at `LeadingBlanks` with blanks on
      every other position. */
  function Format(layout: Layout, width: nat, s: string): (r: string)
    ensures width == 0 ==> r == []
    ensures 0 < width <= |s| ==> r == s
    ensures |s| < width ==> |r| == width
    ensures |s| < width ==>
              var lead := LeadingBlanks(layout, width - |s|);
              && r[lead..lead + |s|] == s
              && forall i :: 0 <= i < width && !(lead <= i < lead + |s|) ==> r[i] == ' '
  {
    if width == 0 then []
    else if |s| >= width then s
    else
      var gap := width - |s|;
      match layout
      case AlignRight => Fill(gap, ' ') + s
      case AlignLeft => s + Fill(gap, ' ')
      case AlignCenter =>
        var right := gap / 2;
        Fill(gap - right, ' ') + s + Fill(right, ' ')
  }

  /** Centring splits the blanks evenly, with at most one more on the left. */
  lemma CenterSplit(width: nat, s: string)
    requires |s| < width
    ensures var lead := LeadingBlanks(AlignCenter, width - |s|);
            var trail := width - |s| - lead;
            lead == trail || lead == trail + 1
  {
  }

  /** Number of decimal digits of `n` (the text of 0 is "0"). */
  function NumDigits(n: nat): (d: nat)
    ensures d >= 1
  {
    if n < 10 then 1 else 1 + NumDigits(n / 10)
  }

  function Pow10(k: nat): (p: nat)
    ensures p >= 1
  {
    if k == 0 then 1 else 10 * Pow10(k - 1)
  }

  /** `NumDigits(n)` is `floor(log10 n) + 1` for every positive `n`. */
  lemma {:induction false} NumDigitsIsLog10(n: nat)
    requires n >= 1
    ensures Pow10(NumDigits(n) - 1) <= n < Pow10(NumDigits(n))
  {
    if n >= 10 {
      NumDigitsIsLog10(n / 10);
      var d := NumDigits(n / 10);
      assert Pow10(d) <= n by {
        assert Pow10(d - 1) <= n / 10;
        assert Pow10(d) == 10 * Pow10(d - 1);
      }
      assert n < Pow10(d + 1) by {
        assert n / 10 + 1 <= Pow10(d);
        assert Pow10(d + 1) == 10 * Pow10(d);
      }
    }
  }

  /** A larger count never has fewer digits. */
  lemma {:induction false} NumDigitsMonotone(a: nat, b: nat)
    requires a <= b
    ensures NumDigits(a) <= NumDigits(b)
  {
    if a >= 10 {
      NumDigitsMonotone(a / 10, b / 10);
    }
  }

  predicate IsDigit(c: char) {
    '0' <= c <= '9'
  }

  function DigitValue(c: char): nat
    requires IsDigit(c)
  {
    c as int - '0' as int
  }

  function DigitChar(d: nat): (c: char)
    requires d < 10
    ensures IsDigit(c) && DigitValue(c) == d
  {
    "0123456789"[d]
  }

  /** `std::to_string` of an unsigned count: its decimal text, without
      leading zeros. */
  function DecimalString(n: nat): (r: string)
    ensures |r| == NumDigits(n)
    ensures forall i :: 0 <= i < |r| ==> IsDigit(r[i])
    ensures r[0] == '0' ==> n == 0
  {
    if n < 10 then [DigitChar(n)] else DecimalString(n / 10) + [DigitChar(n % 10)]
  }

  /** The value of a string of decimal digits. */
  function DecimalValue(s: string): nat
    requires forall i :: 0 <= i < |s| ==> IsDigit(s[i])
  {
    if s == [] then 0
    else DecimalValue(s[..|s| - 1]) * 10 + DigitValue(s[|s| - 1])
  }

  /** Reading back the decimal text of `n` gives `n`. */
  lemma {:induction false} DecimalRoundTrip(n: nat)
    ensures DecimalValue(DecimalString(n)) == n
  {
    var s := DecimalString(n);
    if n >= 10 {
      DecimalRoundTrip(n / 10);
      assert s[..|s| - 1] == DecimalString(n / 10);
    }
  }

  /** Distinct counts have distinct texts. */
  lemma DecimalStringInjective(a: nat, b: nat)
    requires DecimalString(a) == DecimalString(b)
    ensures a == b
  {
    DecimalRoundTrip(a);
    DecimalRoundTrip(b);
  }
}
