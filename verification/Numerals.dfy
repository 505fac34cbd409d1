/** Positional numerals: the `{:X}` text of a name digest and the decimal text of a paging token. */
module Numerals {
  import opened Status
  import opened MachineInts

  const DIGITS: string := "0123456789ABCDEF"

  /** The numeral of `n`, most significant digit first, without leading zeros. */
  function Render(n: nat, base: nat): string
    requires 2 <= base <= 16
  {
    if n < base then [DIGITS[n]] else Render(n / base, base) + [DIGITS[n % base]]
  }

  function DigitOf(c: char, base: nat): Option<nat> {
    var d := if '0' <= c <= '9' then c as int - '0' as int
             else if 'A' <= c <= 'F' then c as int - 'A' as int + 10
             else base;
    if 0 <= d < base then Some(d) else None
  }

  /** The value of a digit string, or None when some character is not a digit. */
  function Value(text: string, base: nat): Option<nat> {
    if text == "" then Some(0)
    else
      match (Value(text[..|text| - 1], base), DigitOf(text[|text| - 1], base))
      case (Some(high), Some(low)) => Some(high * base + low)
      case _ => None
  }

  /** `str::parse::<usize>()`: an optional plus sign, then at least one digit, within range. */
  function ParseUsize(text: string): Option<usize> {
    var digits := if text != "" && text[0] == '+' then text[1..] else text;
    if digits == "" then None
    else
      match Value(digits, 10)
      case Some(v) => if v < TWO_64 then Some(v) else None
      case None => None
  }

  function PrintUsize(n: usize): string {
    Render(n, 10)
  }

  /** The name a volume is stored under: `format!("{:X}", digest)`. */
  function HexName(digest: u64): string {
    Render(digest, 16)
  }

  function Pow(base: nat, k: nat): nat {
    if k == 0 then 1 else base * Pow(base, k - 1)
  }

  ghost predicate AllDigits(text: string, base: nat) {
    forall i :: 0 <= i < |text| ==> DigitOf(text[i], base).Some?
  }

  lemma {:induction false} DigitRoundTrip(d: nat, base: nat)
    requires d < base <= 16
    ensures DigitOf(DIGITS[d], base) == Some(d)
    ensures DIGITS[d] != '+'
    ensures DIGITS[d] == '0' ==> d == 0
  {
    assert DIGITS[..] == "0123456789ABCDEF";
  }

  lemma DivMod(n: nat, base: nat)
    requires 2 <= base
    ensures (n / base) * base + n % base == n && n % base < base
    ensures base <= n ==> 0 < n / base < n
  {
  }

  lemma ValueSnoc(high: string, low: char, base: nat)
    requires Value(high, base).Some? && DigitOf(low, base).Some?
    ensures Value(high + [low], base) == Some(Value(high, base).value * base + DigitOf(low, base).value)
  {
    assert (high + [low])[..|high|] == high;
  }

  /** What rendering gives: a non-empty numeral of the number, that starts with the digit zero only for zero. */
  ghost predicate Renders(n: nat, base: nat, text: string) {
    && text != "" && AllDigits(text, base) && Value(text, base) == Some(n)
    && text[0] != '+' && (text[0] == '0' ==> n == 0)
  }

  lemma RendersDigit(n: nat, base: nat)
    requires 2 <= base <= 16 && n < base
    ensures Renders(n, base, [DIGITS[n]])
  {
    DigitRoundTrip(n, base);
    assert Value("", base) == Some(0);
    assert [DIGITS[n]][..0] == "";
  }

  /** One more digit after a numeral that is not zero. */
  lemma RendersSnoc(high: string, n: nat, base: nat)
    requires 2 <= base <= 16 && base <= n && Renders(n / base, base, high)
    ensures Renders(n, base, high + [DIGITS[n % base]])
  {
    DigitRoundTrip(n % base, base);
    ValueSnoc(high, DIGITS[n % base], base);
    hide Value, DigitOf;
    DivMod(n, base);
  }

  lemma {:induction false} RenderRenders(n: nat, base: nat)
    requires 2 <= base <= 16
    ensures Renders(n, base, Render(n, base))
    decreases n
  {
    hide Renders;
    if n < base {
      RendersDigit(n, base);
    } else {
      DivMod(n, base);
      RenderRenders(n / base, base);
      RendersSnoc(Render(n / base, base), n, base);
    }
  }

  /** Parsing a rendered numeral gives the number back; only zero starts with the digit zero. */
  lemma RenderRoundTrip(n: nat, base: nat)
    requires 2 <= base <= 16
    ensures Value(Render(n, base), base) == Some(n)
    ensures |Render(n, base)| >= 1 && AllDigits(Render(n, base), base)
    ensures Render(n, base)[0] != '+'
    ensures Render(n, base)[0] == '0' ==> n == 0
  {
    RenderRenders(n, base);
    hide Value, DigitOf, Render;
  }

  /** A number below base^k needs at most k digits. */
  lemma {:induction false} RenderLength(n: nat, base: nat, k: nat)
    requires 2 <= base <= 16 && 1 <= k && n < Pow(base, k)
    ensures |Render(n, base)| <= k
    decreases k
  {
    DivMod(n, base);
    assert Pow(base, 1) == base * Pow(base, 0) == base;
    if base <= n {
      QuotientBelow(n, base, Pow(base, k - 1));
      RenderLength(n / base, base, k - 1);
    }
  }

  lemma QuotientBelow(n: nat, base: nat, bound: nat)
    requires 2 <= base && n < base * bound
    ensures n / base < bound
  {
    DivMod(n, base);
    var q := n / base;
    assert base * q < base * bound;
  }

  lemma SixteenHexDigits()
    ensures Pow(16, 16) == TWO_64
  {
    assert Pow(16, 4) == 0x1_0000;
    assert Pow(16, 8) == 0x1_0000_0000;
    assert Pow(16, 12) == 0x1_0000_0000_0000;
  }

  /** Every 64-bit digest is named by 1 to 16 uppercase hex digits, with no leading zero, and the name determines it. */
  lemma HexNameCodec(digest: u64)
    ensures 1 <= |HexName(digest)| <= 16 && AllDigits(HexName(digest), 16)
    ensures forall i :: 0 <= i < |HexName(digest)| ==>
      '0' <= HexName(digest)[i] <= '9' || 'A' <= HexName(digest)[i] <= 'F'
    ensures HexName(digest)[0] == '0' ==> HexName(digest) == "0" && digest == 0
    ensures Value(HexName(digest), 16) == Some(digest)
  {
    RenderRoundTrip(digest, 16);
    SixteenHexDigits();
    RenderLength(digest, 16, 16);
  }

  /** Two names address the same volume iff their digests are equal. */
  lemma HexNameInjective(x: u64, y: u64)
    ensures HexName(x) == HexName(y) <==> x == y
  {
    HexNameCodec(x);
    HexNameCodec(y);
  }

  /** Every token the server prints is read back as the same position. */
  lemma TokenRoundTrip(n: usize)
    ensures ParseUsize(PrintUsize(n)) == Some(n)
  {
    RenderRoundTrip(n, 10);
  }

  ghost predicate Decimal(text: string) {
    forall i :: 0 <= i < |text| ==> '0' <= text[i] <= '9'
  }

  /** The value of decimal digits by position from the left. */
  ghost function Positional(text: string, base: nat): int {
    if text == "" then 0 else (text[0] as int - '0' as int) * Pow(base, |text| - 1) + Positional(text[1..], base)
  }

  lemma {:induction false} PositionalSnoc(text: string, base: nat)
    requires text != ""
    ensures Positional(text, base)
         == Positional(text[..|text| - 1], base) * base + (text[|text| - 1] as int - '0' as int)
  {
    var front, d := text[..|text| - 1], text[0] as int - '0' as int;
    if |text| == 1 {
      assert Pow(base, 0) == 1 && text[1..] == "" && front == "";
    } else {
      PositionalSnoc(text[1..], base);
      assert text[1..][..|text| - 2] == front[1..];
      Shift(d, Pow(base, |text| - 2), Positional(front[1..], base), base);
      hide Positional;
    }
  }

  lemma Shift(d: int, power: nat, low: int, base: nat)
    ensures (d * power + low) * base == d * (base * power) + low * base
  {
  }

  /** Reading decimal text from the right gives its positional value, and only digits can be read. */
  lemma {:induction false} ValuePositional(text: string)
    ensures Value(text, 10).Some? <==> Decimal(text)
    ensures Value(text, 10).Some? ==> Value(text, 10).value == Positional(text, 10)
  {
    if text != "" {
      var front, last := text[..|text| - 1], text[|text| - 1];
      ValuePositional(front);
      assert DigitOf(last, 10).Some? <==> '0' <= last <= '9';
      assert text == front + [last];
      if Value(text, 10).Some? {
        PositionalSnoc(text, 10);
      }
    }
  }

  /**
   * Which texts are accepted as a usize, and for what: after an optional plus sign, one or more decimal digits
   * whose positional value is below 2^64.
   */
  lemma ParseUsizeExactly(text: string)
    ensures var digits := if text != "" && text[0] == '+' then text[1..] else text;
      && (ParseUsize(text).Some? <==>
            digits != "" && Decimal(digits) && Positional(digits, 10) < 0x1_0000_0000_0000_0000)
      && (ParseUsize(text).Some? ==> ParseUsize(text).value == Positional(digits, 10))
  {
    ValuePositional(if text != "" && text[0] == '+' then text[1..] else text);
    hide Value, Positional;
  }
}
