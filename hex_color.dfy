/**
  The colour formatter of the palette page: an integer becomes `"#"` followed by its
  lower-case hexadecimal form, left-padded with `'0'` to six digits (the `#rrggbb`
  notation of section 5.2 of CSS Color Module Level 4).

  `Math.random()` is not modelled: the integer `Math.floor(Math.random() * 16777215)`
  is taken as the parameter `n`, so `0 <= n < 16777215`.
*/
module HexColor {
  import opened Wrappers

  /** Number of distinct values of `Math.floor(Math.random() * 16777215)`. */
  const RandomRange: nat := 16777215

  /** Number of hexadecimal digits of a formatted colour. */
  const Width: nat := 6

  /** The one six-digit colour outside the generator's range. */
  const White: string := "#ffffff"

  function Pow16(k: nat): (r: nat)
    ensures r >= 1
  {
    if k == 0 then 1 else 16 * Pow16(k - 1)
  }

  predicate IsHexDigit(c: char) {
    '0' <= c <= '9' || 'a' <= c <= 'f'
  }

  predicate IsHexString(s: string) {
    forall i :: 0 <= i < |s| ==> IsHexDigit(s[i])
  }

  /** A well-formed colour: `#` and six lower-case hexadecimal digits. */
  predicate IsColor(s: string) {
    |s| == 1 + Width && s[0] == '#' && IsHexString(s[1..])
  }

  function DigitValue(c: char): (d: nat)
    requires IsHexDigit(c)
    ensures d < 16
  {
    if c <= '9' then c as int - '0' as int else c as int - 'a' as int + 10
  }

  /** The lower-case digit that `Number.prototype.toString(16)` writes for `d`. */
  function Digit(d: nat): (c: char)
    requires d < 16
    ensures IsHexDigit(c) && DigitValue(c) == d
  {
    if d < 10 then ('0' as int + d) as char else ('a' as int + d - 10) as char
  }

  lemma DigitOfValue(c: char)
    requires IsHexDigit(c)
    ensures Digit(DigitValue(c)) == c
  {
  }

  /** `c` repeated `k` times. */
  function Repeat(c: char, k: nat): (s: string)
    ensures |s| == k && forall i :: 0 <= i < k ==> s[i] == c
  {
    if k == 0 then [] else Repeat(c, k - 1) + [c]
  }

  /** The number a string of hexadecimal digits denotes, most significant digit first. */
  function Value(s: string): (v: nat)
    requires IsHexString(s)
    ensures v < Pow16(|s|)
  {
    if s == [] then 0 else 16 * Value(s[..|s| - 1]) + DigitValue(s[|s| - 1])
  }

  /** The `k` lowest hexadecimal digits of `n`, most significant first. */
  function Digits(n: nat, k: nat): (s: string)
    ensures |s| == k && IsHexString(s)
  {
    if k == 0 then [] else Digits(n / 16, k - 1) + [Digit(n % 16)]
  }

  /** `n.toString(16)`: the shortest hexadecimal numeral of `n`. */
  function ToHex(n: nat): (s: string)
    ensures 1 <= |s| && IsHexString(s)
    ensures Value(s) == n
    ensures |s| == 1 || s[0] != '0'
  {
    if n < 16 then [Digit(n)]
    else
      var high := ToHex(n / 16);
      var s := high + [Digit(n % 16)];
      assert s[..|s| - 1] == high;
      s
  }

  /** `s.padStart(width, c)` for a one-character fill string `c`. */
  function PadStart(s: string, width: nat, c: char): (r: string)
    ensures |r| == if |s| < width then width else |s|
  {
    if width <= |s| then s else Repeat(c, width - |s|) + s
  }

  /** `generateRandomHexColor`, with the random integer as the parameter `n`. */
  function RandomHexColor(n: nat): (s: string)
    requires n < RandomRange
    ensures IsColor(s)
    ensures ParseColor(s) == Some(n)
    ensures s != White
  {
    var s := "#" + PadStart(ToHex(n), Width, '0');
    PaddedHexIsDigits(n, Width);
    ValueOfDigits(n, Width);
    assert s[1..] == Digits(n, Width);
    WhiteIsMaximal();
    s
  }

  /** Reads a colour back: the number its six digits denote, or `None` if `s` is not a colour. */
  function ParseColor(s: string): (r: Option<nat>)
    ensures r.Some? <==> IsColor(s)
    ensures r.Some? ==> r.value < Pow16(Width)
  {
    if IsColor(s) then Some(Value(s[1..])) else None
  }

  lemma {:induction false} ValueOfDigits(n: nat, k: nat)
    requires n < Pow16(k)
    ensures Value(Digits(n, k)) == n
  {
    if k > 0 {
      var s := Digits(n, k);
      assert s[..k - 1] == Digits(n / 16, k - 1);
      ValueOfDigits(n / 16, k - 1);
    }
  }

  lemma {:induction false} DigitsOfValue(s: string)
    requires IsHexString(s)
    ensures Digits(Value(s), |s|) == s
  {
    if s != [] {
      var init, last := s[..|s| - 1], s[|s| - 1];
      assert IsHexString(init);
      DigitsOfValue(init);
      var v := Value(s);
      assert v / 16 == Value(init) && v % 16 == DigitValue(last);
      DigitOfValue(last);
      assert s == init + [last];
    }
  }

  lemma {:induction false} DigitsOfZero(k: nat)
    ensures Digits(0, k) == Repeat('0', k)
  {
    if k > 0 {
      DigitsOfZero(k - 1);
    }
  }

  lemma PadStartSnoc(s: string, x: char, width: nat, c: char)
    requires width >= 1
    ensures PadStart(s + [x], width, c) == PadStart(s, width - 1, c) + [x]
  {
  }

  /** Zero-padding the shortest numeral of `n` to `k` digits gives its `k`-digit form. */
  lemma {:induction false} PaddedHexIsDigits(n: nat, k: nat)
    requires 1 <= k && n < Pow16(k)
    ensures PadStart(ToHex(n), k, '0') == Digits(n, k)
  {
    if n < 16 {
      DigitsOfZero(k - 1);
      assert Digits(n, k) == Digits(0, k - 1) + [Digit(n)];
    } else {
      assert k >= 2;
      PadStartSnoc(ToHex(n / 16), Digit(n % 16), k, '0');
      PaddedHexIsDigits(n / 16, k - 1);
    }
  }

  lemma {:induction false} ValueOfAllF(k: nat)
    ensures Value(Repeat('f', k)) == Pow16(k) - 1
  {
    if k > 0 {
      assert Repeat('f', k)[..k - 1] == Repeat('f', k - 1);
      ValueOfAllF(k - 1);
    }
  }

  /** `#ffffff` denotes the largest six-digit value, 16777215. */
  lemma WhiteIsMaximal()
    ensures IsColor(White) && ParseColor(White) == Some(RandomRange)
    ensures Pow16(Width) == RandomRange + 1
  {
    assert White[1..] == Repeat('f', Width);
    ValueOfAllF(Width);
  }

  /**
    Every well-formed colour other than `#ffffff` is produced by exactly the integer it
    denotes: formatting and parsing are inverse on the generator's range.
  */
  lemma ColorOnto(s: string)
    requires IsColor(s) && s != White
    ensures ParseColor(s).Some? && ParseColor(s).value < RandomRange
    ensures RandomHexColor(ParseColor(s).value) == s
  {
    var digits := s[1..];
    var v := Value(digits);
    DigitsOfValue(digits);
    WhiteIsMaximal();
    if v == RandomRange {
      DigitsOfValue(White[1..]);
      assert false;
    }
    var r := RandomHexColor(v);
    PaddedHexIsDigits(v, Width);
    assert r == "#" + Digits(v, Width);
  }
}
