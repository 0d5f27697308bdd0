/**
 * `format_tokens`: a token count rendered as `-`, a plain integer, or a
 * magnitude with a `K` or `M` suffix (src/toktab/display.py).
 *
 * Python computes `tokens / 1_000` as a float and formats it with `.1f`.
 * Here the division is exact and the one-decimal rounding is rounding of
 * the exact rational to the nearest tenth, ties to even.
 */
module Tokens {

  import opened Wrappers
  import opened Decimal

  const Thousand: nat := 1_000
  const Million: nat := 1_000_000

  /** Python's `s.rstrip(c)` for a single character `c`. */
  function RStrip(s: string, c: char): (r: string)
    ensures |r| <= |s| && r == s[..|r|]
    ensures |r| == 0 || r[|r| - 1] != c
    ensures forall i :: |r| <= i < |s| ==> s[i] == c
  {
    if |s| > 0 && s[|s| - 1] == c then RStrip(s[..|s| - 1], c) else s
  }

  /**
   * The number of `tenth`s nearest to `n`; when `n` lies exactly halfway
   * between two multiples of `tenth`, the even count (see RoundTenthsNearest).
   */
  function RoundTenths(n: nat, tenth: nat): (t: nat)
    requires tenth > 0
    ensures t == n / tenth || t == n / tenth + 1
  {
    var q, rem := n / tenth, n % tenth;
    if 2 * rem > tenth || (2 * rem == tenth && q % 2 == 1) then q + 1 else q
  }

  /** `RoundTenths` picks a nearest multiple, and the even one on a tie. */
  lemma RoundTenthsNearest(n: nat, tenth: nat)
    requires tenth > 0
    ensures var t := RoundTenths(n, tenth);
      2 * (t * tenth) <= 2 * n + tenth && 2 * n <= 2 * (t * tenth) + tenth
    ensures var t := RoundTenths(n, tenth);
      (2 * n == 2 * (t * tenth) + tenth || 2 * n + tenth == 2 * (t * tenth)) ==> t % 2 == 0
  {
    var q, rem := n / tenth, n % tenth;
    assert (q + 1) * tenth == q * tenth + tenth;
    assert q * tenth == n - rem;
  }

  /**
   * `f"{n / unit:.1f}"`: integer part, a point, and exactly one decimal
   * digit, which together read as the rounded count of tenths of `unit`.
   */
  function OneDecimal(n: nat, unit: nat): (s: string)
    requires unit >= 10 && unit % 10 == 0
    ensures |s| >= 3 && s[|s| - 2] == '.' && AllDigits(s[..|s| - 2]) && IsDigit(s[|s| - 1])
    ensures |s| > 3 ==> s[0] != '0'
    ensures ParseNat(s[..|s| - 2]) * 10 + DigitValue(s[|s| - 1]) == RoundTenths(n, unit / 10)
  {
    var t := RoundTenths(n, unit / 10);
    var whole := NatToString(t / 10);
    ParseNatToString(t / 10);
    var s := whole + "." + [DigitChar(t % 10)];
    assert s[..|s| - 2] == whole;
    s
  }

  /**
   * One magnitude branch of `format_tokens`: the integer quotient and the
   * suffix for an exact multiple, otherwise the one-decimal rendering with
   * the suffix, followed by the source's `rstrip("0").rstrip(".")`.
   *
   * A non-multiple always keeps its point and its one decimal digit, even
   * when that digit is `0`: the suffix ends the string, so the strip of
   * trailing zeros has nothing to remove.
   */
  function Scaled(n: nat, unit: nat, suffix: char): (r: string)
    requires unit == Thousand || unit == Million
    requires suffix == 'K' || suffix == 'M'
    ensures |r| >= 2 && r[|r| - 1] == suffix
    ensures n % unit == 0 ==> r == NatToString(n / unit) + [suffix]
    ensures n % unit != 0 ==> r == OneDecimal(n, unit) + [suffix]
  {
    if n % unit == 0 then NatToString(n / unit) + [suffix]
    else
      var s := OneDecimal(n, unit) + [suffix];
      RStripStops(s, '0');
      RStripStops(s, '.');
      RStrip(RStrip(s, '0'), '.')
  }

  /**
   * `format_tokens`: `-` for no count, `M` exactly from one million, `K`
   * exactly from one thousand below that, and a bare number otherwise.
   */
  function FormatTokens(tokens: Option<int>): (r: string)
    ensures |r| > 0
    ensures r == "-" <==> tokens.None?
    ensures r[|r| - 1] == 'M' <==> tokens.Some? && tokens.value >= Million
    ensures r[|r| - 1] == 'K' <==> tokens.Some? && Thousand <= tokens.value < Million
    ensures IsDigit(r[|r| - 1]) <==> tokens.Some? && tokens.value < Thousand
  {
    match tokens
    case None => "-"
    case Some(n) =>
      if n >= Million then Scaled(n, Million, 'M')
      else if n >= Thousand then Scaled(n, Thousand, 'K')
      else IntToString(n)
  }

  /** Stripping a character that is not the last one removes nothing. */
  lemma RStripStops(s: string, c: char)
    requires |s| > 0 && s[|s| - 1] != c
    ensures RStrip(s, c) == s
  {
  }

  /** `format_tokens(None)` is `-`. */
  lemma FormatTokensNone()
    ensures FormatTokens(None) == "-"
  {
  }

  /** Below one thousand, negatives included, the result is `str(tokens)`, which reads back as the count. */
  lemma FormatTokensSmall(n: int)
    requires n < Thousand
    ensures FormatTokens(Some(n)) == IntToString(n)
    ensures IsIntLiteral(FormatTokens(Some(n))) && ParseInt(FormatTokens(Some(n))) == n
  {
    ParseIntToString(n);
  }

  /** Exact multiples: `8000` is `8K`, `2000000` is `2M`. */
  lemma FormatTokensExact(n: int)
    requires n >= Thousand
    requires if n >= Million then n % Million == 0 else n % Thousand == 0
    ensures FormatTokens(Some(n)) ==
      if n >= Million then NatToString(n / Million) + "M" else NatToString(n / Thousand) + "K"
  {
  }

  /** Non-multiples: always `<int>.<digit><suffix>`, the nearest tenth of the unit. */
  lemma FormatTokensOneDecimal(n: int)
    requires n >= Thousand
    requires if n >= Million then n % Million != 0 else n % Thousand != 0
    ensures var unit := if n >= Million then Million else Thousand;
      var t := RoundTenths(n, unit / 10);
      FormatTokens(Some(n)) ==
        NatToString(t / 10) + "." + [DigitChar(t % 10)] + (if n >= Million then "M" else "K")
  {
  }

  /**
   * Reads a rendering of `format_tokens` back as a token count: `-` is no
   * count, `<int>` its value, and `<int><S>` or `<int>.<digit><S>` the
   * magnitude it shows.
   */
  function ReadTokens(s: string): Option<int> {
    if |s| > 0 && s[|s| - 1] == 'M' then ReadScaled(s[..|s| - 1], Million)
    else if |s| > 0 && s[|s| - 1] == 'K' then ReadScaled(s[..|s| - 1], Thousand)
    else if IsIntLiteral(s) then Some(ParseInt(s))
    else None
  }

  function ReadScaled(body: string, unit: nat): Option<int>
    requires unit == Thousand || unit == Million
  {
    if |body| > 0 && AllDigits(body) then Some(ParseNat(body) * unit)
    else if |body| >= 3 && body[|body| - 2] == '.' && AllDigits(body[..|body| - 2]) && IsDigit(body[|body| - 1])
    then Some((ParseNat(body[..|body| - 2]) * 10 + DigitValue(body[|body| - 1])) * (unit / 10))
    else None
  }

  /** One magnitude branch reads back as the count itself for a multiple, otherwise within half a tenth of `unit`. */
  lemma ScaledReadBack(n: nat, unit: nat, suffix: char)
    requires unit == Thousand || unit == Million
    requires suffix == 'K' || suffix == 'M'
    ensures var r := Scaled(n, unit, suffix);
      && |r| > 0 && r[|r| - 1] == suffix
      && ReadScaled(r[..|r| - 1], unit).Some?
      && var m := ReadScaled(r[..|r| - 1], unit).value;
        && 2 * m <= 2 * n + unit / 10 && 2 * n <= 2 * m + unit / 10
        && (n % unit == 0 ==> m == n)
  {
    var r := Scaled(n, unit, suffix);
    if n % unit == 0 {
      assert r[..|r| - 1] == NatToString(n / unit);
      ParseNatToString(n / unit);
    } else {
      assert r[..|r| - 1] == OneDecimal(n, unit);
      OneDecimalReadBack(n, unit);
    }
  }

  /** The one-decimal rendering reads back within half a tenth of `unit`. */
  lemma OneDecimalReadBack(n: nat, unit: nat)
    requires unit == Thousand || unit == Million
    ensures ReadScaled(OneDecimal(n, unit), unit).Some?
    ensures var m := ReadScaled(OneDecimal(n, unit), unit).value;
      2 * m <= 2 * n + unit / 10 && 2 * n <= 2 * m + unit / 10
  {
    var body, t := OneDecimal(n, unit), RoundTenths(n, unit / 10);
    assert !AllDigits(body) by { assert !IsDigit(body[|body| - 2]); }
    assert ReadScaled(body, unit) == Some(t * (unit / 10));
    RoundTenthsNearest(n, unit / 10);
  }

  /**
   * The rendering reads back as the count itself below one thousand and for
   * exact multiples, and otherwise as a count within half a tenth of the
   * unit (50 tokens for `K`, 50 000 for `M`). Only `None` renders as no count.
   */
  lemma FormatTokensReadBack(tokens: Option<int>)
    ensures ReadTokens(FormatTokens(tokens)).Some? <==> tokens.Some?
    ensures tokens.Some? ==> var n, m := tokens.value, ReadTokens(FormatTokens(tokens)).value;
      && (n < Thousand ==> m == n)
      && (Thousand <= n < Million ==> 2 * m <= 2 * n + 100 && 2 * n <= 2 * m + 100 && (n % Thousand == 0 ==> m == n))
      && (n >= Million ==> 2 * m <= 2 * n + 100_000 && 2 * n <= 2 * m + 100_000 && (n % Million == 0 ==> m == n))
  {
    match tokens
    case None =>
    case Some(n) =>
      if n >= Million {
        ScaledReadBack(n, Million, 'M');
      } else if n >= Thousand {
        ScaledReadBack(n, Thousand, 'K');
      } else {
        FormatTokensSmall(n);
      }
  }

  /** The examples of the source's tests, and the kept `.0` of a non-multiple. */
  lemma FormatTokensExamplesSmall()
    ensures FormatTokens(Some(500)) == "500"
  {
    assert NatToString(5) == "5";
    assert NatToString(50) == "50";
  }

  lemma FormatTokensExamplesExact()
    ensures FormatTokens(Some(8000)) == "8K"
    ensures FormatTokens(Some(128000)) == "128K"
    ensures FormatTokens(Some(1000000)) == "1M"
    ensures FormatTokens(Some(2000000)) == "2M"
  {
    assert NatToString(1) == "1";
    assert NatToString(12) == "12";
    assert NatToString(128) == "128";
  }

  lemma FormatTokensExampleRounded()
    ensures FormatTokens(Some(8192)) == "8.2K"
  {
    assert RoundTenths(8192, 100) == 82;
    assert OneDecimal(8192, Thousand) == NatToString(8) + "." + [DigitChar(2)];
    assert Scaled(8192, Thousand, 'K') == OneDecimal(8192, Thousand) + ['K'];
    assert NatToString(8) == "8";
  }

  lemma FormatTokensExampleKeptZero()
    ensures FormatTokens(Some(8010)) == "8.0K"
  {
    assert RoundTenths(8010, 100) == 80;
    assert OneDecimal(8010, Thousand) == NatToString(8) + "." + [DigitChar(0)];
    assert Scaled(8010, Thousand, 'K') == OneDecimal(8010, Thousand) + ['K'];
    assert NatToString(8) == "8";
    assert DigitChar(0) == '0';
  }

  lemma FormatTokensExampleCarry()
    ensures FormatTokens(Some(999_999)) == "1000.0K"
  {
    assert RoundTenths(999_999, 100) == 10000;
    assert OneDecimal(999_999, Thousand) == NatToString(1000) + "." + [DigitChar(0)];
    assert Scaled(999_999, Thousand, 'K') == OneDecimal(999_999, Thousand) + ['K'];
    assert NatToString(1000) == "1000" by {
      assert NatToString(1) == "1";
      assert NatToString(10) == "10";
      assert NatToString(100) == "100";
    }
    assert DigitChar(0) == '0';
  }
}
